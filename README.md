# Creature meta asset: bend-physics chains and metadata tables

A Dafny model of `CreatureMetaAsset.cpp`, part of the Creature animation runtime's Unreal Engine plugin. It covers:

- **`CreatureMetaData::buildSkinSwapIndices`** (module `SkinSwap`). It gathers the index ranges of the render regions named by a skin-swap set into one buffer, in region order, and collects their tag ids. The buffer is an `array` sized in a first pass and filled at a running offset in a second.
- **The constraint limit setters** `SetLinearLimits` and `SetAngularLimits`, and the fixed profile every bend-chain constraint gets (module `ConstraintProfile`). These are record updates over a constraint instance.
- **`CreaturePhysicsData`** (module `PhysicsChain`, class `PhysicsChain`). This is the rigid bodies and constraints approximating bone chains:
  - `createPhysicsChain`, `clearPhysicsChain`
  - the kinematic drive of the anchor bones (`updateKinematicPos`, `updateAllKinematicBones`)
  - the read-back of simulated body positions into the bones (`updateBonePositions`)

  The engine is the class `PhysicsScene.Scene`. Components are natural-number handles handed out in sequence, each body has a position, and simulation and destruction are ghost sets. The bones the animation system holds are the class `Skeleton`, a map from bone key to pose.
- **`UCreatureMetaAsset::BuildMetaData`** over the deserializer's result (modules `Json`, `MetaTables`, `MetaAsset`). It fills:
  - the mesh, region-order, event-trigger and skin-swap tables
  - the `"clip.event"` name list
  - the bend-physics chain list, carrying each (clip, motor)'s `active`/`stiffness`/`damping` over a reload
- **`UCreatureMetaAsset::CreateBendPhysicsChain`**. It builds every active chain of one clip into a fresh instance, in list order, and returns null at the first chain with a bone name missing from the bones map.

Every loop of the source is a `while`/`for` loop proved against a function of its inputs. The properties the code promises are then proved as lemmas about those functions:

- round trips: placing a body then reading it back, a label then splitting it
- build then clear destroys exactly what was built
- reload is idempotent
- if-and-only-if characterisations of the listed event names, the kinematic bones and the collected tag ids

The base transform is an abstract pair of mappings (`Geometry.Xform`). Its one assumed property, that the inverse undoes the forward mapping, is the hypothesis `Inverts(xf)` of the lemmas that need it.

Two details of the code that the model keeps:

- Reloading clears `meta_data` and the chain list before parsing (lines 555-558), so a document that fails to parse leaves both empty. The event and skin-swap name lists are emptied only inside the success branch (607, 633), so they keep their contents on failure.
- An unknown skin-swap name empties the index buffer but does not clear the region-id set (17-21).

## Model

All source paths are relative to the repository root; every row cites `CreatureMetaAsset.cpp`.

| member | source | states |
|---|---|---|
| `SkinSwap.BuildSkinSwapIndices` | CreatureEditorAndPlugin/CreaturePlugin/Source/CreaturePlugin/Private/CreatureMetaAsset.cpp:10-51 | An unknown swap name empties the index buffer and leaves the region-id set as it was. A known name makes the buffer the index ranges of the regions in the swap set, concatenated in region order. Its length is the sum of their index counts, and the id set becomes exactly their tag ids. |
| `SkinSwap.SizeSwap` | CreatureEditorAndPlugin/CreaturePlugin/Source/CreaturePlugin/Private/CreatureMetaAsset.cpp:24-35 | The first pass computes the total size as the sum of the matching regions' index counts, and the id set as their tag ids. |
| `SkinSwap.CopySwap` | CreatureEditorAndPlugin/CreaturePlugin/Source/CreaturePlugin/Private/CreatureMetaAsset.cpp:37-50 | The second pass fills an array of the computed size in place, at a running offset, and ends holding exactly the concatenated ranges. |
| `SkinSwap.CopyRange` | CreatureEditorAndPlugin/CreaturePlugin/Source/CreaturePlugin/Private/CreatureMetaAsset.cpp:44-47 | Copying a region's range to `offset` keeps the buffer before `offset`, follows it with the copied entries, and leaves everything after them unchanged. |
| `SkinSwap.SwapIndicesLength` | CreatureEditorAndPlugin/CreaturePlugin/Source/CreaturePlugin/Private/CreatureMetaAsset.cpp:37-50 | The concatenated ranges have exactly the length the first pass computed, so the sized buffer is filled exactly. |
| `SkinSwap.SwapCountPrefix` | CreatureEditorAndPlugin/CreaturePlugin/Source/CreaturePlugin/Private/CreatureMetaAsset.cpp:39-49 | The running offset after any prefix of the regions stays within the buffer size. |
| `SkinSwap.MatchedTagsIff` | CreatureEditorAndPlugin/CreaturePlugin/Source/CreaturePlugin/Private/CreatureMetaAsset.cpp:28-35 | A tag id is collected if and only if some region in the swap set carries it. |
| `SkinSwap.SwapIndicesBlockAt` | CreatureEditorAndPlugin/CreaturePlugin/Source/CreaturePlugin/Private/CreatureMetaAsset.cpp:39-50 | Region k's range sits in the buffer at the offset given by the matching regions before it, so the ranges occupy consecutive, non-overlapping slices. |
| `SkinSwap.SwapExample` | CreatureEditorAndPlugin/CreaturePlugin/Source/CreaturePlugin/Private/CreatureMetaAsset.cpp:10-51 | A concrete swap of regions A and C out of A, B, C gives A's indices followed by C's, and the tag ids of A and C. |
| `ConstraintProfile.CodeOf` | CreatureEditorAndPlugin/CreaturePlugin/Source/CreaturePlugin/Private/CreatureMetaAsset.cpp:67-72 | Every motion has the code 0, 1 or 2. |
| `ConstraintProfile.ApplyCode` | CreatureEditorAndPlugin/CreaturePlugin/Source/CreaturePlugin/Private/CreatureMetaAsset.cpp:67-72 | A code 0..2 selects the motion with that code; any other code leaves the current motion. |
| `ConstraintProfile.ApplyCodeOf` | CreatureEditorAndPlugin/CreaturePlugin/Source/CreaturePlugin/Private/CreatureMetaAsset.cpp:67-84 | Applying a motion's code selects that motion, whatever was set before. |
| `ConstraintProfile.SetLinearLimits` | CreatureEditorAndPlugin/CreaturePlugin/Source/CreaturePlugin/Private/CreatureMetaAsset.cpp:54-100 | Sets collision, the three linear motions per their codes (other codes leave them), the limit size, softness, stiffness and damping. The cone and twist limits are unchanged. |
| `ConstraintProfile.SetAngularLimits` | CreatureEditorAndPlugin/CreaturePlugin/Source/CreaturePlugin/Private/CreatureMetaAsset.cpp:102-157 | Sets the swing1, swing2 and twist motions per their codes (other codes leave them), the three limit angles, both softness flags, and the stiffness and damping of cone and twist. Collision and the linear limit are unchanged. |
| `ConstraintProfile.ChainProfile` | CreatureEditorAndPlugin/CreaturePlugin/Source/CreaturePlugin/Private/CreatureMetaAsset.cpp:264-289 | Every chain constraint has swing1, swing2 and twist Limited at 0 degrees, with soft cone and twist limits using (stiffness, damping). Linear X, Y and Z are Locked with size 2, a hard limit, and stiffness x2 and damping x2. Collision is disabled. |
| `ConstraintProfile.ChainProfileIgnoresInit` | CreatureEditorAndPlugin/CreaturePlugin/Source/CreaturePlugin/Private/CreatureMetaAsset.cpp:264-289 | The profile sets every field, so the starting instance does not show through. |
| `Geometry.SwapYZInvolution` | CreatureEditorAndPlugin/CreaturePlugin/Source/CreaturePlugin/Private/CreatureMetaAsset.cpp:228-232 | Flipping y and z twice gives the point back. |
| `Geometry.AnimPhysicsRoundTrip` | CreatureEditorAndPlugin/CreaturePlugin/Source/CreaturePlugin/Private/CreatureMetaAsset.cpp:413-416 | Reading back a body placed from a point (T of the flipped point, then flip of T^-1) gives the point again. |
| `Geometry.PlanarOfPlaced` | CreatureEditorAndPlugin/CreaturePlugin/Source/CreaturePlugin/Private/CreatureMetaAsset.cpp:459-466 | Reading back a body placed from a point gives that point's first two coordinates with third coordinate 0. |
| `PhysicsScene.Scene.CreateBody` | CreatureEditorAndPlugin/CreaturePlugin/Source/CreaturePlugin/Private/CreatureMetaAsset.cpp:225-234 | A new body gets the next handle, placed at the given point and not simulating; nothing else in the scene changes. |
| `PhysicsScene.Scene.CreateJoint` | CreatureEditorAndPlugin/CreaturePlugin/Source/CreaturePlugin/Private/CreatureMetaAsset.cpp:291-300 | A new constraint gets the next handle, coupling the two bodies under the profile; nothing else changes. |
| `PhysicsScene.Scene.SetSimulate` | CreatureEditorAndPlugin/CreaturePlugin/Source/CreaturePlugin/Private/CreatureMetaAsset.cpp:341-344 | The handle enters or leaves the simulating set; nothing else changes. |
| `PhysicsScene.Scene.SetPosition` | CreatureEditorAndPlugin/CreaturePlugin/Source/CreaturePlugin/Private/CreatureMetaAsset.cpp:393 | Only that body's position changes. |
| `PhysicsScene.Scene.Destroy` | CreatureEditorAndPlugin/CreaturePlugin/Source/CreaturePlugin/Private/CreatureMetaAsset.cpp:354 | The handle is added to the destroyed set; nothing else changes. |
| `PhysicsChain.PhysicsChain.CreatePhysicsChain` | CreatureEditorAndPlugin/CreaturePlugin/Source/CreaturePlugin/Private/CreatureMetaAsset.cpp:159-345 | With fewer than two bones nothing changes, not even the clip name. Otherwise the clip name is set and each bone is bound to a new body at T(flip(start)), with the tip body at T(flip(end of last bone)). Each consecutive pair's constraint is appended under its pair key, the tip constraint replaces the last bone's self-pair list, and every body but the first is set simulating. Validity is kept. |
| `PhysicsChain.AddChainFields` | CreatureEditorAndPlugin/CreaturePlugin/Source/CreaturePlugin/Private/CreatureMetaAsset.cpp:159-345 | createPhysicsChain's field-by-field effect on the instance and the scene is exactly `AddChain` of the state before. |
| `PhysicsChain.AddChainJoints` | CreatureEditorAndPlugin/CreaturePlugin/Source/CreaturePlugin/Private/CreatureMetaAsset.cpp:306-339 | A build keeps every existing joint and every joint handle issued. Its first chain joint gets a handle not issued before and the profile of the given stiffness and damping. |
| `PhysicsChain.AddChainNewJoints` | CreatureEditorAndPlugin/CreaturePlugin/Source/CreaturePlugin/Private/CreatureMetaAsset.cpp:306-339 | Every joint a build adds carries the chain profile of the given stiffness and damping. |
| `PhysicsChain.PhysicsChain.CreateBodies` | CreatureEditorAndPlugin/CreaturePlugin/Source/CreaturePlugin/Private/CreatureMetaAsset.cpp:189-254 | The body loop creates N+1 fresh bodies in order, binds bone i to body i (the last also to the tip), and places each at its mapped point. |
| `PhysicsChain.PhysicsChain.BindBone` | CreatureEditorAndPlugin/CreaturePlugin/Source/CreaturePlugin/Private/CreatureMetaAsset.cpp:191-253 | One pass binds bone i to a new body at its mapped start point, linked to bone i+1. For the last bone it also creates the tip at its mapped end point. |
| `PhysicsChain.PhysicsChain.CreateConstraints` | CreatureEditorAndPlugin/CreaturePlugin/Source/CreaturePlugin/Private/CreatureMetaAsset.cpp:306-339 | The pair constraints and then the tip constraint, each a fresh handle coupling the right bodies under the chain profile. |
| `PhysicsChain.PhysicsChain.LinkPairs` | CreatureEditorAndPlugin/CreaturePlugin/Source/CreaturePlugin/Private/CreatureMetaAsset.cpp:307-325 | Pair i's new constraint couples body i and body i+1 and is appended under the pair's key, in order. |
| `PhysicsChain.PhysicsChain.LinkPair` | CreatureEditorAndPlugin/CreaturePlugin/Source/CreaturePlugin/Private/CreatureMetaAsset.cpp:309-324 | A list is created under the pair key only if absent, and the new handle is appended to it; other lists are kept. |
| `PhysicsChain.PhysicsChain.LinkTip` | CreatureEditorAndPlugin/CreaturePlugin/Source/CreaturePlugin/Private/CreatureMetaAsset.cpp:327-339 | The self-pair key of the last bone is reset to a list holding only the new tip constraint, which couples the last body and the tip. |
| `PhysicsChain.PhysicsChain.SetSimulateFlags` | CreatureEditorAndPlugin/CreaturePlugin/Source/CreaturePlugin/Private/CreatureMetaAsset.cpp:341-344 | Of the created bodies only the first stays non-simulating. |
| `PhysicsChain.PhysicsChain.ClearPhysicsChain` | CreatureEditorAndPlugin/CreaturePlugin/Source/CreaturePlugin/Private/CreatureMetaAsset.cpp:347-374 | Destroys every constraint in every list and every body and tip, then leaves both maps empty. Kinematic bones, the clip name and the rest of the scene are unchanged. |
| `PhysicsChain.PhysicsChain.ClearTwice` | CreatureEditorAndPlugin/CreaturePlugin/Source/CreaturePlugin/Private/CreatureMetaAsset.cpp:347-374 | clearPhysicsChain is idempotent: clearing twice destroys exactly what one clear destroys and leaves the same state, because a cleared instance holds no component. |
| `PhysicsChain.PhysicsChain.DestroyConstraints` | CreatureEditorAndPlugin/CreaturePlugin/Source/CreaturePlugin/Private/CreatureMetaAsset.cpp:349-356 | Destroys exactly the handles held in the constraint lists. |
| `PhysicsChain.PhysicsChain.DestroyBodies` | CreatureEditorAndPlugin/CreaturePlugin/Source/CreaturePlugin/Private/CreatureMetaAsset.cpp:358-370 | Destroys exactly the bodies of the bindings and the tips of those that have one. |
| `PhysicsChain.PhysicsChain.DestroyAll` | CreatureEditorAndPlugin/CreaturePlugin/Source/CreaturePlugin/Private/CreatureMetaAsset.cpp:352-355 | Destroys exactly the handles of one list. |
| `PhysicsChain.PhysicsChain.UpdateKinematicPos` | CreatureEditorAndPlugin/CreaturePlugin/Source/CreaturePlugin/Private/CreatureMetaAsset.cpp:376-394 | A bone without a binding changes nothing. Otherwise only its body moves, to T(flip(start point)). |
| `PhysicsChain.PhysicsChain.UpdateAllKinematicBones` | CreatureEditorAndPlugin/CreaturePlugin/Source/CreaturePlugin/Private/CreatureMetaAsset.cpp:396-402 | The positions are those after driving each kinematic bone once, in list order. |
| `PhysicsChain.PhysicsChain.UpdateBonePositions` | CreatureEditorAndPlugin/CreaturePlugin/Source/CreaturePlugin/Private/CreatureMetaAsset.cpp:404-470 | Every bound bone's pose becomes its read-back pose; every other bone keeps its pose. |
| `PhysicsChain.PhysicsChain.ReadBackBone` | CreatureEditorAndPlugin/CreaturePlugin/Source/CreaturePlugin/Private/CreatureMetaAsset.cpp:409-467 | Following the code's branches over next bone, next-next bone and tip yields the read-back pose. |
| `PhysicsChain.BindingsKeys` | CreatureEditorAndPlugin/CreaturePlugin/Source/CreaturePlugin/Private/CreatureMetaAsset.cpp:236-251 | Binding adds exactly the chain's bone keys and keeps every other binding. |
| `PhysicsChain.BindingsKeySet` | CreatureEditorAndPlugin/CreaturePlugin/Source/CreaturePlugin/Private/CreatureMetaAsset.cpp:191-254 | After binding a chain, the binding keys are the old keys plus the chain's bone keys. |
| `PhysicsChain.BindingsAt` | CreatureEditorAndPlugin/CreaturePlugin/Source/CreaturePlugin/Private/CreatureMetaAsset.cpp:236-251 | Bone i's binding is body h0+i with the next-bone link, whatever was bound under its key before. |
| `PhysicsChain.BindingsSize` | CreatureEditorAndPlugin/CreaturePlugin/Source/CreaturePlugin/Private/CreatureMetaAsset.cpp:191-254 | N distinct, previously unbound bones add exactly N bindings. |
| `PhysicsChain.ChainShape` | CreatureEditorAndPlugin/CreaturePlugin/Source/CreaturePlugin/Private/CreatureMetaAsset.cpp:191-253 | Bone i links to bone i+1, the last bone has no next bone, and only the last bone owns a tip body. |
| `PhysicsChain.PlacementsStep` | CreatureEditorAndPlugin/CreaturePlugin/Source/CreaturePlugin/Private/CreatureMetaAsset.cpp:229-249 | One more body adds exactly its position. |
| `PhysicsChain.PlacementsAt` | CreatureEditorAndPlugin/CreaturePlugin/Source/CreaturePlugin/Private/CreatureMetaAsset.cpp:229-249 | Body h0+m sits at T(flip(its point)); handles outside the chain keep their positions. |
| `PhysicsChain.ChainJointsStep` | CreatureEditorAndPlugin/CreaturePlugin/Source/CreaturePlugin/Private/CreatureMetaAsset.cpp:307-339 | One more constraint adds exactly its joint. |
| `PhysicsChain.ChainJointsAt` | CreatureEditorAndPlugin/CreaturePlugin/Source/CreaturePlugin/Private/CreatureMetaAsset.cpp:307-339 | Constraint hc+j couples body j and body j+1; other joints are kept. |
| `PhysicsChain.HandleRangeIff` | CreatureEditorAndPlugin/CreaturePlugin/Source/CreaturePlugin/Private/CreatureMetaAsset.cpp:341-344 | The range holds exactly the handles between its bounds. |
| `PhysicsChain.LinksStep` | CreatureEditorAndPlugin/CreaturePlugin/Source/CreaturePlugin/Private/CreatureMetaAsset.cpp:307-325 | One more pair appends exactly one handle under its key. |
| `PhysicsChain.LinksKeys` | CreatureEditorAndPlugin/CreaturePlugin/Source/CreaturePlugin/Private/CreatureMetaAsset.cpp:316-321 | Linking keeps every list and adds one for each pair key. |
| `PhysicsChain.LinksAt` | CreatureEditorAndPlugin/CreaturePlugin/Source/CreaturePlugin/Private/CreatureMetaAsset.cpp:316-324 | Linking only appends: a list is its old contents followed by the handles of the pairs with its key. |
| `PhysicsChain.UnderDistinct` | CreatureEditorAndPlugin/CreaturePlugin/Source/CreaturePlugin/Private/CreatureMetaAsset.cpp:307-325 | With distinct pair keys each pair's list receives exactly its one handle. |
| `PhysicsChain.UnderAbsent` | CreatureEditorAndPlugin/CreaturePlugin/Source/CreaturePlugin/Private/CreatureMetaAsset.cpp:307-325 | A key no pair has receives no handle. |
| `PhysicsChain.UnderHas` | CreatureEditorAndPlugin/CreaturePlugin/Source/CreaturePlugin/Private/CreatureMetaAsset.cpp:307-325 | The handles under a key are exactly those of the pairs with that key. |
| `PhysicsChain.ChainLinksSound` | CreatureEditorAndPlugin/CreaturePlugin/Source/CreaturePlugin/Private/CreatureMetaAsset.cpp:307-339 | Every constraint stored by a build into an empty instance is one the build created. |
| `PhysicsChain.ChainLinksComplete` | CreatureEditorAndPlugin/CreaturePlugin/Source/CreaturePlugin/Private/CreatureMetaAsset.cpp:307-339 | Every constraint the build created is stored, provided the self-pair key differs from every pair key. |
| `PhysicsChain.ChainBodyHandles` | CreatureEditorAndPlugin/CreaturePlugin/Source/CreaturePlugin/Private/CreatureMetaAsset.cpp:191-254 | A build into an empty instance binds exactly its N+1 bodies. |
| `PhysicsChain.BuildThenClear` | CreatureEditorAndPlugin/CreaturePlugin/Source/CreaturePlugin/Private/CreatureMetaAsset.cpp:347-374 | Clearing an instance holding one built chain destroys exactly the 2N+1 components the build created. |
| `PhysicsChain.HandlesUnderKeysAdd` | CreatureEditorAndPlugin/CreaturePlugin/Source/CreaturePlugin/Private/CreatureMetaAsset.cpp:349-356 | Visiting one more constraint list destroys exactly its handles. |
| `PhysicsChain.BodiesOfKeysAdd` | CreatureEditorAndPlugin/CreaturePlugin/Source/CreaturePlugin/Private/CreatureMetaAsset.cpp:358-370 | Visiting one more binding destroys exactly its body and its tip, if any. |
| `PhysicsChain.DriveAllFrame` | CreatureEditorAndPlugin/CreaturePlugin/Source/CreaturePlugin/Private/CreatureMetaAsset.cpp:396-402 | The drive moves only the bodies of bound kinematic bones and adds no body. |
| `PhysicsChain.DriveAllPins` | CreatureEditorAndPlugin/CreaturePlugin/Source/CreaturePlugin/Private/CreatureMetaAsset.cpp:396-402 | After the drive each bound kinematic bone's body is at T(flip(its start point)). |
| `PhysicsChain.EndRefs` | CreatureEditorAndPlugin/CreaturePlugin/Source/CreaturePlugin/Private/CreatureMetaAsset.cpp:420-440 | The bodies read-back looks up (next bone's body, and the next-next body or tip) exist in the scene. |
| `PhysicsChain.ReadBackKeysStep` | CreatureEditorAndPlugin/CreaturePlugin/Source/CreaturePlugin/Private/CreatureMetaAsset.cpp:407-469 | Reading back one more bone updates that bone and no other. |
| `PhysicsChain.ReadBackShape` | CreatureEditorAndPlugin/CreaturePlugin/Source/CreaturePlugin/Private/CreatureMetaAsset.cpp:409-467 | The start point is flip(T^-1(own body)). The end point is written only when both reference bodies exist, and then has third coordinate 0. It comes from the next bone's body for a bone without a tip, and from its own tip for a last bone. |
| `PhysicsChain.ReadBackOfRefs` | CreatureEditorAndPlugin/CreaturePlugin/Source/CreaturePlugin/Private/CreatureMetaAsset.cpp:442-466 | Once the reference bodies are known, the end point is the planar image of the next body (no tip) or the end body (with tip). |
| `PhysicsChain.ChainEndRefs` | CreatureEditorAndPlugin/CreaturePlugin/Source/CreaturePlugin/Private/CreatureMetaAsset.cpp:421-440 | In a built chain, the reference bodies of bone i are body i+1 and then body i+2 (or the tip for the second-to-last bone). For the last bone they are its own body and its tip. |
| `PhysicsChain.BuildThenReadBackStart` | CreatureEditorAndPlugin/CreaturePlugin/Source/CreaturePlugin/Private/CreatureMetaAsset.cpp:413-416 | Reading back right after a build returns each bone's start point unchanged. |
| `PhysicsChain.BuildThenReadBackEnd` | CreatureEditorAndPlugin/CreaturePlugin/Source/CreaturePlugin/Private/CreatureMetaAsset.cpp:421-466 | Reading back right after a build gives a bone the planar image of the next bone's start point, and the last bone that of its own end point. |
| `PhysicsChain.DriveThenReadBack` | CreatureEditorAndPlugin/CreaturePlugin/Source/CreaturePlugin/Private/CreatureMetaAsset.cpp:376-416 | Driving the anchors and then reading back returns each kinematic bone's start point. |
| `PhysicsChain.BindingOrigin` | CreatureEditorAndPlugin/CreaturePlugin/Source/CreaturePlugin/Private/CreatureMetaAsset.cpp:236-251 | Every binding is either untouched or bone i's binding. |
| `PhysicsChain.AddChainKeepsLinked` | CreatureEditorAndPlugin/CreaturePlugin/Source/CreaturePlugin/Private/CreatureMetaAsset.cpp:236-251 | After a build every next-bone link names a bound bone, so the read-back lookups at 425 and 430 succeed. |
| `PhysicsChain.AddChainKeepsValid` | CreatureEditorAndPlugin/CreaturePlugin/Source/CreaturePlugin/Private/CreatureMetaAsset.cpp:189-254 | A build keeps links resolvable, bodies placed and bodies distinct per bone. |
| `Json.Field` | CreatureEditorAndPlugin/CreaturePlugin/Source/CreaturePlugin/Private/CreatureMetaAsset.cpp:563-564 | Field lookup (HasField/TryGetField) fails exactly when no entry has the name; otherwise it returns the value of an entry with that name. |
| `Json.FieldDistinct` | CreatureEditorAndPlugin/CreaturePlugin/Source/CreaturePlugin/Private/CreatureMetaAsset.cpp:563-564 | In a uniquely named object (a TMap's entries), looking up an entry's name gives exactly that entry's value. |
| `Json.ObjectFieldWellFormed` | CreatureEditorAndPlugin/CreaturePlugin/Source/CreaturePlugin/Private/CreatureMetaAsset.cpp:563-564 | A section of a uniquely named document is itself uniquely named at every depth. |
| `MetaTables.TabulateKeys` | CreatureEditorAndPlugin/CreaturePlugin/Source/CreaturePlugin/Private/CreatureMetaAsset.cpp:565-573 | A key is in a filled table if and only if some entry produces it. |
| `MetaTables.TabulateLast` | CreatureEditorAndPlugin/CreaturePlugin/Source/CreaturePlugin/Private/CreatureMetaAsset.cpp:572 | Add replaces, so the last entry with a key decides its value. |
| `MetaTables.TabulateSize` | CreatureEditorAndPlugin/CreaturePlugin/Source/CreaturePlugin/Private/CreatureMetaAsset.cpp:565-573 | Entries with pairwise distinct keys give a table with one key per entry. |
| `MetaTables.FillTable` | CreatureEditorAndPlugin/CreaturePlugin/Source/CreaturePlugin/Private/CreatureMetaAsset.cpp:563-574 | The entry loop builds exactly the tabulated map. |
| `MetaTables.IntsOfAt` | CreatureEditorAndPlugin/CreaturePlugin/Source/CreaturePlugin/Private/CreatureMetaAsset.cpp:590-594 | The switch order has one integer per item, item by item. |
| `MetaTables.ReadInts` | CreatureEditorAndPlugin/CreaturePlugin/Source/CreaturePlugin/Private/CreatureMetaAsset.cpp:590-594 | The loop reads exactly the switch order's integers. |
| `MetaTables.FillSwitchOrders` | CreatureEditorAndPlugin/CreaturePlugin/Source/CreaturePlugin/Private/CreatureMetaAsset.cpp:584-599 | One clip's switch-time to order table. |
| `MetaTables.FillOrders` | CreatureEditorAndPlugin/CreaturePlugin/Source/CreaturePlugin/Private/CreatureMetaAsset.cpp:577-604 | The region-order table, clip by clip. |
| `MetaTables.ClipOfLabel` | CreatureEditorAndPlugin/CreaturePlugin/Source/CreaturePlugin/Private/CreatureMetaAsset.cpp:627 | The clip part of "clip.event" is the clip when the clip has no '.'. |
| `MetaTables.LabelRoundTrip` | CreatureEditorAndPlugin/CreaturePlugin/Source/CreaturePlugin/Private/CreatureMetaAsset.cpp:627 | "clip.event" splits back into clip and event. |
| `MetaTables.LabelInjective` | CreatureEditorAndPlugin/CreaturePlugin/Source/CreaturePlugin/Private/CreatureMetaAsset.cpp:627 | Two events of clips without '.' never share a listed name. |
| `MetaTables.LabelsOfHas` | CreatureEditorAndPlugin/CreaturePlugin/Source/CreaturePlugin/Private/CreatureMetaAsset.cpp:625-628 | Each event of a clip's table has its label. |
| `MetaTables.LabelsOfWitness` | CreatureEditorAndPlugin/CreaturePlugin/Source/CreaturePlugin/Private/CreatureMetaAsset.cpp:625-628 | Each label comes from an event of the table. |
| `MetaTables.LabelsOfAdd` | CreatureEditorAndPlugin/CreaturePlugin/Source/CreaturePlugin/Private/CreatureMetaAsset.cpp:625-628 | One more event adds exactly its label. |
| `MetaTables.ClipLabelsSound` | CreatureEditorAndPlugin/CreaturePlugin/Source/CreaturePlugin/Private/CreatureMetaAsset.cpp:607-630 | Every listed name is "clip.event" for some event of some clip in the document. |
| `MetaTables.ClipLabelsComplete` | CreatureEditorAndPlugin/CreaturePlugin/Source/CreaturePlugin/Private/CreatureMetaAsset.cpp:607-630 | Every event of every clip in the document has its name listed. |
| `MetaTables.ClipLabelsIff` | CreatureEditorAndPlugin/CreaturePlugin/Source/CreaturePlugin/Private/CreatureMetaAsset.cpp:607-630 | A name is listed if and only if some clip has an event it names. |
| `MetaTables.ListedAppend` | CreatureEditorAndPlugin/CreaturePlugin/Source/CreaturePlugin/Private/CreatureMetaAsset.cpp:627 | Appending a name adds exactly that name. |
| `MetaTables.AddEventLabels` | CreatureEditorAndPlugin/CreaturePlugin/Source/CreaturePlugin/Private/CreatureMetaAsset.cpp:625-628 | Appends one label per (switch_time, event_name) pair of the clip's table: each name occurs exactly as many times more as there are pairs with that label, so the new names are exactly the table's labels. |
| `MetaTables.LabelCountAdd` | CreatureEditorAndPlugin/CreaturePlugin/Source/CreaturePlugin/Private/CreatureMetaAsset.cpp:625-628 | One more pair adds one occurrence of its own label and none of any other. |
| `MetaTables.LabelCountsAppend` | CreatureEditorAndPlugin/CreaturePlugin/Source/CreaturePlugin/Private/CreatureMetaAsset.cpp:625-628 | Appending the label of one more pair keeps every name's number of occurrences equal to the number of listed pairs with that label. |
| `MetaTables.LabelCountPositive` | CreatureEditorAndPlugin/CreaturePlugin/Source/CreaturePlugin/Private/CreatureMetaAsset.cpp:625-628 | A label occurs for a clip exactly when some pair of its table has it. |
| `MetaTables.ClipLabelCountPositive` | CreatureEditorAndPlugin/CreaturePlugin/Source/CreaturePlugin/Private/CreatureMetaAsset.cpp:607-630 | A name occurs in the event-name list exactly when it is the label of some clip's event. |
| `MetaTables.FillEventTriggers` | CreatureEditorAndPlugin/CreaturePlugin/Source/CreaturePlugin/Private/CreatureMetaAsset.cpp:606-630 | The event table per clip. Each name is listed exactly as many times as there are (clip, event) pairs with that label, so the list holds one name per event and exactly the labels. |
| `MetaTables.EntryNames` | CreatureEditorAndPlugin/CreaturePlugin/Source/CreaturePlugin/Private/CreatureMetaAsset.cpp:637-651 | The skin-swap names are the entry names, in order. |
| `MetaTables.SkinSwapNamesAreKeys` | CreatureEditorAndPlugin/CreaturePlugin/Source/CreaturePlugin/Private/CreatureMetaAsset.cpp:632-652 | In a uniquely named section, the skin-swap name list holds each key of the skin-swap table exactly once. |
| `MetaTables.ReadSwapSet` | CreatureEditorAndPlugin/CreaturePlugin/Source/CreaturePlugin/Private/CreatureMetaAsset.cpp:639-647 | The swap set is exactly the items' names. |
| `MetaTables.FillSkinSwaps` | CreatureEditorAndPlugin/CreaturePlugin/Source/CreaturePlugin/Private/CreatureMetaAsset.cpp:632-652 | The skin-swap table, plus one name per entry in order. |
| `MetaTables.CarriedNone` | CreatureEditorAndPlugin/CreaturePlugin/Source/CreaturePlugin/Private/CreatureMetaAsset.cpp:676-685 | With no previous (clip, motor) match the chain keeps its defaults. |
| `MetaTables.CarriedLast` | CreatureEditorAndPlugin/CreaturePlugin/Source/CreaturePlugin/Private/CreatureMetaAsset.cpp:676-685 | With matches, the last one hands over active, stiffness and damping. |
| `MetaTables.CarryTuning` | CreatureEditorAndPlugin/CreaturePlugin/Source/CreaturePlugin/Private/CreatureMetaAsset.cpp:676-685 | The loop over the old chains yields exactly the carried tuning. |
| `MetaTables.NamesOfAt` | CreatureEditorAndPlugin/CreaturePlugin/Source/CreaturePlugin/Private/CreatureMetaAsset.cpp:670-674 | One bone name per array item, item by item. |
| `MetaTables.ReadNames` | CreatureEditorAndPlugin/CreaturePlugin/Source/CreaturePlugin/Private/CreatureMetaAsset.cpp:670-674 | The loop reads exactly the bone names. |
| `MetaTables.FillMotorChains` | CreatureEditorAndPlugin/CreaturePlugin/Source/CreaturePlugin/Private/CreatureMetaAsset.cpp:661-688 | One chain per motor entry of a clip, in order. |
| `MetaTables.FillChains` | CreatureEditorAndPlugin/CreaturePlugin/Source/CreaturePlugin/Private/CreatureMetaAsset.cpp:655-690 | The chains of every clip, clip by clip. |
| `MetaTables.ChainsFromDocument` | CreatureEditorAndPlugin/CreaturePlugin/Source/CreaturePlugin/Private/CreatureMetaAsset.cpp:655-690 | Each new chain comes from a (clip, motor) entry of the document, with that entry's bone names and count. Chains absent from the document are dropped. |
| `MetaTables.MotorChainsFrom` | CreatureEditorAndPlugin/CreaturePlugin/Source/CreaturePlugin/Private/CreatureMetaAsset.cpp:661-688 | Each chain of a clip comes from one of its motor entries. |
| `MetaTables.ChainsTuned` | CreatureEditorAndPlugin/CreaturePlugin/Source/CreaturePlugin/Private/CreatureMetaAsset.cpp:665-687 | Every new chain has the tuning of the last old chain with its (clip, motor), or the defaults. |
| `MetaTables.ChainsCover` | CreatureEditorAndPlugin/CreaturePlugin/Source/CreaturePlugin/Private/CreatureMetaAsset.cpp:655-690 | Every (clip, motor) entry of the document has a chain in the new list. |
| `MetaTables.MotorChainsCover` | CreatureEditorAndPlugin/CreaturePlugin/Source/CreaturePlugin/Private/CreatureMetaAsset.cpp:661-688 | Every motor entry of a clip has its chain. |
| `MetaTables.CarriedThrough` | CreatureEditorAndPlugin/CreaturePlugin/Source/CreaturePlugin/Private/CreatureMetaAsset.cpp:676-685 | Carrying from a list that already carries the old tuning gives the old tuning. |
| `MetaTables.MotorChainsThrough` | CreatureEditorAndPlugin/CreaturePlugin/Source/CreaturePlugin/Private/CreatureMetaAsset.cpp:661-688 | A clip's chains are the same whether carried from the old list or from an already-reloaded one. |
| `MetaTables.ChainsThrough` | CreatureEditorAndPlugin/CreaturePlugin/Source/CreaturePlugin/Private/CreatureMetaAsset.cpp:655-690 | The same holds for the whole document. |
| `MetaTables.ReloadIdempotent` | CreatureEditorAndPlugin/CreaturePlugin/Source/CreaturePlugin/Private/CreatureMetaAsset.cpp:555-690 | Reloading the same document twice gives the chain list of reloading it once. |
| `MetaAsset.BonesOf` | CreatureEditorAndPlugin/CreaturePlugin/Source/CreaturePlugin/Private/CreatureMetaAsset.cpp:710-720 | The resolved bones follow the chain's bone names one for one. |
| `MetaAsset.KinematicKeysIff` | CreatureEditorAndPlugin/CreaturePlugin/Source/CreaturePlugin/Private/CreatureMetaAsset.cpp:705-733 | A bone becomes kinematic if and only if it is the first bone of a built (clip and active) chain. |
| `MetaAsset.ResolveBones` | CreatureEditorAndPlugin/CreaturePlugin/Source/CreaturePlugin/Private/CreatureMetaAsset.cpp:710-720 | Fails if and only if some bone name is missing from the bones map; otherwise returns the named bones in order. |
| `MetaAsset.PrefixStep` | CreatureEditorAndPlugin/CreaturePlugin/Source/CreaturePlugin/Private/CreatureMetaAsset.cpp:705-733 | One more chain adds its first bone to the kinematic bones and, with two bones or more, its bones to the bound bones. |
| `MetaAsset.ResolvedUpToIff` | CreatureEditorAndPlugin/CreaturePlugin/Source/CreaturePlugin/Private/CreatureMetaAsset.cpp:705-720 | The chains reached so far all resolve exactly when every built chain among them has all its bone names in the bones map. |
| `MetaAsset.BuildableAt` | CreatureEditorAndPlugin/CreaturePlugin/Source/CreaturePlugin/Private/CreatureMetaAsset.cpp:705-731 | The precondition of CreateBendPhysicsChain gives a non-empty, repeat-free bone list to exactly the built chains the loop reaches and resolves. |
| `MetaAsset.BuildAllIssued` | CreatureEditorAndPlugin/CreaturePlugin/Source/CreaturePlugin/Private/CreatureMetaAsset.cpp:705-732 | The chain loop only hands out new handles: every joint's handle stays below the handle counter, which never decreases. |
| `MetaAsset.BuildAllJointsSound` | CreatureEditorAndPlugin/CreaturePlugin/Source/CreaturePlugin/Private/CreatureMetaAsset.cpp:722-729 | Every joint the chain loop creates carries the constraint profile made from the stiffness and damping of a chain it built. |
| `MetaAsset.BuildAllJointsComplete` | CreatureEditorAndPlugin/CreaturePlugin/Source/CreaturePlugin/Private/CreatureMetaAsset.cpp:722-729 | Every built chain with two bones or more leaves a new joint carrying the profile of its own stiffness and damping, which later chains do not overwrite. |
| `MetaAsset.ReadMeshes` | CreatureEditorAndPlugin/CreaturePlugin/Source/CreaturePlugin/Private/CreatureMetaAsset.cpp:563-574 | An absent meshes section leaves the table empty; otherwise it is the tabulated section. |
| `MetaAsset.ReadOrders` | CreatureEditorAndPlugin/CreaturePlugin/Source/CreaturePlugin/Private/CreatureMetaAsset.cpp:577-604 | The same for regionOrders. |
| `MetaAsset.ReadEventTriggers` | CreatureEditorAndPlugin/CreaturePlugin/Source/CreaturePlugin/Private/CreatureMetaAsset.cpp:606-630 | An absent eventTriggers section gives an empty table and no names; otherwise the table and each label listed once per event with that label. |
| `MetaAsset.ReadSkinSwaps` | CreatureEditorAndPlugin/CreaturePlugin/Source/CreaturePlugin/Private/CreatureMetaAsset.cpp:632-652 | The same for skinSwapList, with the swap names. |
| `MetaAsset.ReadChains` | CreatureEditorAndPlugin/CreaturePlugin/Source/CreaturePlugin/Private/CreatureMetaAsset.cpp:654-690 | The same for physicsData, carrying tuning from the old chains. |
| `MetaAsset.CreatureMetaAsset.BuildMetaData` | CreatureEditorAndPlugin/CreaturePlugin/Source/CreaturePlugin/Private/CreatureMetaAsset.cpp:551-692 | The tables and the chain list are cleared before parsing, so a failed parse leaves them empty (and keeps the name lists). A parsed document fills every table, lists each "clip.event" name once per event with that label, lists every swap name, and rebuilds the chain list with tuning carried over. |
| `MetaAsset.CreatureMetaAsset.CreateBendPhysicsChain` | CreatureEditorAndPlugin/CreaturePlugin/Source/CreaturePlugin/Private/CreatureMetaAsset.cpp:695-736 | Null if and only if some built (clip and active) chain has an unresolved bone name. Otherwise every chain resolves, and the fresh instance with the scene is exactly `BuildAll`: starting from empty bindings and lists and the old scene, each built chain in list order runs createPhysicsChain on its resolved bones with its own stiffness and damping. The kinematic bones are the built chains' first bones in order, the bound bones are those of built chains with two bones or more, and the clip name is set exactly when one was bound. Nothing is destroyed. On null there is a first unresolved built chain k, and the scene's handle counter, positions, simulating set and joints are those of `BuildAll` over the chains before k: the earlier chains stay built. |
| `MetaAsset.CreatureMetaAsset.BuildSelected` | CreatureEditorAndPlugin/CreaturePlugin/Source/CreaturePlugin/Private/CreatureMetaAsset.cpp:705-732 | A chain that is not built, or that fails, changes neither the instance nor the scene. A built one fails exactly when a bone name is unresolved. Otherwise the instance and scene become `AddChain` of their old state with the chain's resolved bones, stiffness and damping, and its first bone is appended to the kinematic bones. |
| `MetaAsset.CreatureMetaAsset.BuildChainAt` | CreatureEditorAndPlugin/CreaturePlugin/Source/CreaturePlugin/Private/CreatureMetaAsset.cpp:705-732 | Pass i of the chain loop fails, changing nothing, exactly when chain i is built and unresolved. Otherwise it extends the state from `BuildAll` of the first i chains to that of the first i+1, and likewise the kinematic bones, the bound bones and the clip name. |

## Left out

- Engine plumbing is abstracted to handle creation, destruction, position and the simulate flag. This covers `NewObject`, `RegisterComponent`, `AttachToComponent`, `SetConstrainedComponents`, the gravity, mass, scale, velocity and collision settings of the body-setup lambda (175-187), and the attachment of constraint components.
- The physics simulation is not modelled. A body's position is whatever the scene's `position` map holds.
- Floating point is modelled as `real`. `FTransform` is an abstract forward/inverse pair.
- The per-bone bend basis (197-223: `GetSafeNormal`, dot products) is kept as the three points it is computed from. Read-back never uses it, because that use is commented out at 447-457.
- `FJsonSerializer::Deserialize` is a parameter: `BuildMetaData` takes the parsed top-level object or `None`.
- JSON numbers are integers. The `(int32)` cast of `AsNumber` (593) and the truncation of fractional numbers by `GetIntegerField` are not modelled.
- The cross-kind conversions of the engine's JSON accessors are not modelled: a value of the wrong kind reads as empty/zero.
- `TMap` iteration order is not fixed by the source. JSON object entries are kept in document order. The loops over `constraints`, `bodies` and event tables pick their next key by choice, and their results are stated as sets and maps.
- MetaAsset.CreatureMetaAsset.BuildMetaData: the event-name list is stated by how many times each name occurs, not by its order, because the order comes from `TMap` iteration.
- MetaAsset.ReadEventTriggers: the same, for the section it reads.
- MetaTables.AddEventLabels: the same, for one clip's events.
- MetaTables.FillEventTriggers: the same, for the whole section.
- A JSON object that repeats a name is outside the model. The reader stores an object's entries in a `TMap`, which keeps one entry per name. So `BuildMetaData`, the `Read*` methods and the `Fill*` methods over sections require the document to be uniquely named at every depth (`Json.WellFormed`).
- `getConstraintsKey` is not part of this model. It is an uninterpreted function `pairKey` fixed when an instance is made.
- `getConstraint` (316, 323, 337) is not part of this model. It is taken to be the lookup of the constraint list stored under `getConstraintsKey` of the same two bones.
- The bone key of a bone is taken to be its name in the bones map.
- `FBendPhysicsChain`'s default tuning is not part of this model. It is the constructor parameter `untuned` of `CreatureMetaAsset`.
- SkinSwap.SizeSwap: `total_size` and `offset` (24, 39) are `int32` in the code. Here they are unbounded, so a sum that would overflow 32 bits is not modelled.
- `drawDebugBones` (debug rendering) is left out.
- The asset lifecycle is left out: `PostLoad`, `PostInitProperties`, `Serialize`, `GetSourceFilename`, `SetSourceFilename`, `GetJsonString`, `GetMetaData`.
- PhysicsChain.PhysicsChain.CreatePhysicsChain: requires distinct bone keys. With a repeated key the code overwrites the earlier binding (236), and the model does not follow that case.
- MetaAsset.CreatureMetaAsset.CreateBendPhysicsChain: requires a built chain that is reached (every earlier built chain resolves) and that resolves to have at least one bone and no repeated name. A chain whose names do not resolve only yields null. With no bones the code reads past the end of `chain_bones` (731); repeated names are excluded for the reason above.
- PhysicsChain.PhysicsChain.UpdateBonePositions: requires every next-bone link to name a bound bone (the code looks such bones up unguarded at 425 and 430), and every bound bone to be in the bone map.
- PhysicsChain.PhysicsChain.UpdateAllKinematicBones: requires every kinematic bone to be in the bone map (the source holds direct references to the bones).
- PhysicsChain.BuildThenClear: stated for a chain built into an empty instance whose self-pair key differs from its pair keys. When a later chain reuses a bone, `bodies` and the self-pair list are overwritten, and the earlier components are no longer reachable from the instance.
