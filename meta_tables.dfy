/**
 * The tables UCreatureMetaAsset::BuildMetaData fills from the parsed document:
 * mesh index ranges, per-clip region-switch orders and event triggers, skin-swap
 * sets, and the bend-physics chain list, whose tuning survives a reload.
 * Each table is specified by a function of the document (for the chain list,
 * also of the previous list) and filled by a loop proved against it.
 */
module MetaTables {
  import opened Json

  /** CreatureMetaData: the tables decoded from the document. */
  datatype MetaData = MetaData(
    meshMap: map<int, (int, int)>,
    animOrderMap: map<string, map<int, seq<int>>>,
    animEventsMap: map<string, map<int, string>>,
    skinSwaps: map<string, set<string>>)

  /** meta_data.clear(). */
  const EmptyMetaData := MetaData(map[], map[], map[], map[])

  // ---------------------------------------------------------------------------
  // Tables filled with TMap::Add: a later entry with the same key replaces an earlier one.

  /** The map built by adding f(e) for each e of es, in order. */
  function Tabulate<E, K, V>(es: seq<E>, f: E -> (K, V)): map<K, V>
  {
    if es == [] then map[]
    else Tabulate(es[..|es| - 1], f)[f(es[|es| - 1]).0 := f(es[|es| - 1]).1]
  }

  /** A key is in the table exactly when some entry produces it. */
  lemma {:induction false} TabulateKeys<E, K, V>(es: seq<E>, f: E -> (K, V), k: K)
    ensures k in Tabulate(es, f) <==> exists i :: 0 <= i < |es| && f(es[i]).0 == k
  {
    if es != [] {
      var front := es[..|es| - 1];
      TabulateKeys(front, f, k);
      if exists i :: 0 <= i < |front| && f(front[i]).0 == k {
        var i :| 0 <= i < |front| && f(front[i]).0 == k;
        assert es[i] == front[i];
      }
      if exists i :: 0 <= i < |es| && f(es[i]).0 == k {
        var i :| 0 <= i < |es| && f(es[i]).0 == k;
        if i < |es| - 1 {
          assert front[i] == es[i];
        }
      }
    }
  }

  /** The last entry producing a key decides its value. */
  lemma {:induction false} TabulateLast<E, K, V>(es: seq<E>, f: E -> (K, V), i: int)
    requires 0 <= i < |es|
    requires forall j :: i < j < |es| ==> f(es[j]).0 != f(es[i]).0
    ensures f(es[i]).0 in Tabulate(es, f) && Tabulate(es, f)[f(es[i]).0] == f(es[i]).1
  {
    if i < |es| - 1 {
      var front := es[..|es| - 1];
      assert front[i] == es[i];
      forall j | i < j < |front|
        ensures f(front[j]).0 != f(front[i]).0
      {
        assert front[j] == es[j];
      }
      TabulateLast(front, f, i);
    }
  }

  /** Entries with pairwise distinct keys give a table with one key per entry. */
  lemma {:induction false} TabulateSize<E, K, V>(es: seq<E>, f: E -> (K, V))
    requires forall i, j :: 0 <= i < j < |es| ==> f(es[i]).0 != f(es[j]).0
    ensures |Tabulate(es, f)| == |es|
  {
    if es != [] {
      var n := |es| - 1;
      var front := es[..n];
      forall i, j | 0 <= i < j < |front|
        ensures f(front[i]).0 != f(front[j]).0
      {
        assert front[i] == es[i] && front[j] == es[j];
      }
      TabulateSize(front, f);
      TabulateKeys(front, f, f(es[n]).0);
    }
  }

  /** The loop shared by the leaf tables: Add f(e) for each entry in turn. */
  method FillTable<E, K, V>(es: seq<E>, f: E -> (K, V)) returns (table: map<K, V>)
    ensures table == Tabulate(es, f)
  {
    table := map[];
    for i := 0 to |es|
      invariant table == Tabulate(es[..i], f)
    {
      assert es[..i + 1][..i] == es[..i];
      table := table[f(es[i]).0 := f(es[i]).1];
    }
    assert es[..|es|] == es;
  }

  // ---------------------------------------------------------------------------
  // meshes: id -> (startIndex, endIndex)

  function MeshEntry(e: (string, Json)): (int, (int, int))
  {
    var o := AsObject(e.1);
    (GetIntegerField(o, "id"), (GetIntegerField(o, "startIndex"), GetIntegerField(o, "endIndex")))
  }

  // ---------------------------------------------------------------------------
  // regionOrders: clip -> switch_time -> switch_order

  /** The switch order of one item, each number read as an integer. */
  function IntsOf(list: seq<Json>): seq<int>
  {
    if list == [] then [] else IntsOf(list[..|list| - 1]) + [AsInt(list[|list| - 1])]
  }

  lemma {:induction false} IntsOfAt(list: seq<Json>)
    ensures |IntsOf(list)| == |list|
    ensures forall i :: 0 <= i < |list| ==> IntsOf(list)[i] == AsInt(list[i])
  {
    if list != [] {
      IntsOfAt(list[..|list| - 1]);
    }
  }

  method ReadInts(list: seq<Json>) returns (ints: seq<int>)
    ensures ints == IntsOf(list)
  {
    ints := [];
    for i := 0 to |list|
      invariant ints == IntsOf(list[..i])
    {
      assert list[..i + 1][..i] == list[..i];
      ints := ints + [AsInt(list[i])];
    }
    assert list[..|list|] == list;
  }

  function SwitchEntry(item: Json): (int, seq<int>)
  {
    var o := AsObject(item);
    (GetIntegerField(o, "switch_time"), IntsOf(GetArrayField(o, "switch_order")))
  }

  function OrderEntry(e: (string, Json)): (string, map<int, seq<int>>)
  {
    (e.0, Tabulate(AsArray(e.1), SwitchEntry))
  }

  /** The switch-order table of one clip. */
  method FillSwitchOrders(items: seq<Json>) returns (orders: map<int, seq<int>>)
    ensures orders == Tabulate(items, SwitchEntry)
  {
    orders := map[];
    for i := 0 to |items|
      invariant orders == Tabulate(items[..i], SwitchEntry)
    {
      assert items[..i + 1][..i] == items[..i];
      var switchObj := AsObject(items[i]);
      var ints := ReadInts(GetArrayField(switchObj, "switch_order"));
      var switchTime := GetIntegerField(switchObj, "switch_time");
      orders := orders[switchTime := ints];
    }
    assert items[..|items|] == items;
  }

  method FillOrders(entries: seq<(string, Json)>) returns (table: map<string, map<int, seq<int>>>)
    requires WellFormed(JObject(entries))
    ensures table == Tabulate(entries, OrderEntry)
  {
    table := map[];
    for i := 0 to |entries|
      invariant table == Tabulate(entries[..i], OrderEntry)
    {
      assert entries[..i + 1][..i] == entries[..i];
      var orders := FillSwitchOrders(AsArray(entries[i].1));
      table := table[entries[i].0 := orders];
    }
    assert entries[..|entries|] == entries;
  }

  // ---------------------------------------------------------------------------
  // eventTriggers: clip -> switch_time -> event_name, and the "clip.event" labels

  function EventEntry(item: Json): (int, string)
  {
    var o := AsObject(item);
    (GetIntegerField(o, "switch_time"), GetStringField(o, "event_name"))
  }

  /** The event table of one clip. */
  function EventTable(e: (string, Json)): map<int, string>
  {
    Tabulate(AsArray(e.1), EventEntry)
  }

  function EventsEntry(e: (string, Json)): (string, map<int, string>)
  {
    (e.0, EventTable(e))
  }

  /** The name under which an event of a clip is listed: "%s.%s". */
  function Label(clip: string, eventName: string): string
  {
    clip + "." + eventName
  }

  /** The clip part of a label: the text before its first '.'. */
  function ClipOf(name: string): string
  {
    if name == [] || name[0] == '.' then [] else [name[0]] + ClipOf(name[1..])
  }

  /** The event part of a label: the text after its first '.'. */
  function EventOf(name: string): string
  {
    var n := |ClipOf(name)|;
    if n < |name| then name[n + 1..] else []
  }

  lemma {:induction false} ClipOfLabel(clip: string, eventName: string)
    requires '.' !in clip
    ensures ClipOf(Label(clip, eventName)) == clip
  {
    if clip != [] {
      assert Label(clip, eventName)[1..] == Label(clip[1..], eventName);
      ClipOfLabel(clip[1..], eventName);
    }
  }

  /** A label splits back into its clip and event, as long as the clip name has no '.'. */
  lemma LabelRoundTrip(clip: string, eventName: string)
    requires '.' !in clip
    ensures ClipOf(Label(clip, eventName)) == clip && EventOf(Label(clip, eventName)) == eventName
  {
    ClipOfLabel(clip, eventName);
    assert Label(clip, eventName)[|clip| + 1..] == eventName;
  }

  /** So two events of clips without '.' never share a label. */
  lemma LabelInjective(c1: string, e1: string, c2: string, e2: string)
    requires '.' !in c1 && '.' !in c2
    requires Label(c1, e1) == Label(c2, e2)
    ensures c1 == c2 && e1 == e2
  {
    LabelRoundTrip(c1, e1);
    LabelRoundTrip(c2, e2);
  }

  /** The labels of a clip's (switch_time, event_name) pairs. */
  function LabelsOf(clip: string, events: set<(int, string)>): set<string>
  {
    set ev | ev in events :: Label(clip, ev.1)
  }

  lemma LabelsOfHas(clip: string, events: map<int, string>, t: int)
    requires t in events
    ensures Label(clip, events[t]) in LabelsOf(clip, events.Items)
  {
    assert (t, events[t]) in events.Items;
  }

  lemma LabelsOfWitness(clip: string, events: map<int, string>, x: string) returns (t: int)
    requires x in LabelsOf(clip, events.Items)
    ensures t in events && x == Label(clip, events[t])
  {
    var ev :| ev in events.Items && x == Label(clip, ev.1);
    t := ev.0;
  }

  lemma LabelsOfAdd(clip: string, events: set<(int, string)>, ev: (int, string))
    ensures LabelsOf(clip, events + {ev}) == LabelsOf(clip, events) + {Label(clip, ev.1)}
  {
  }

  /** How many of a clip's (switch_time, event_name) pairs are listed as x. */
  function LabelCount(clip: string, events: set<(int, string)>, x: string): nat
  {
    |set ev | ev in events && Label(clip, ev.1) == x|
  }

  /** One more pair adds one occurrence of its own label and none of any other. */
  lemma LabelCountAdd(clip: string, events: set<(int, string)>, ev: (int, string), x: string)
    requires ev !in events
    ensures LabelCount(clip, events + {ev}, x) == LabelCount(clip, events, x) + (if Label(clip, ev.1) == x then 1 else 0)
  {
    var before := set e | e in events && Label(clip, e.1) == x;
    var after := set e | e in events + {ev} && Label(clip, e.1) == x;
    if Label(clip, ev.1) == x {
      assert after == before + {ev};
    } else {
      assert after == before;
    }
  }

  /** Appending one more pair's label keeps the list's counts equal to the pairs' counts. */
  lemma LabelCountsAppend(names: seq<string>, r: seq<string>, clip: string, done: set<(int, string)>, ev: (int, string))
    requires ev !in done
    requires forall x :: multiset(r)[x] == multiset(names)[x] + LabelCount(clip, done, x)
    ensures forall x :: multiset(r + [Label(clip, ev.1)])[x] == multiset(names)[x] + LabelCount(clip, done + {ev}, x)
  {
    forall x
      ensures multiset(r + [Label(clip, ev.1)])[x] == multiset(names)[x] + LabelCount(clip, done + {ev}, x)
    {
      LabelCountAdd(clip, done, ev, x);
      assert multiset(r + [Label(clip, ev.1)]) == multiset(r) + multiset{Label(clip, ev.1)};
    }
  }

  /** A label occurs exactly when some pair has it. */
  lemma LabelCountPositive(clip: string, events: set<(int, string)>, x: string)
    ensures LabelCount(clip, events, x) > 0 <==> x in LabelsOf(clip, events)
  {
    var hits := set e | e in events && Label(clip, e.1) == x;
    if x in LabelsOf(clip, events) {
      var ev :| ev in events && x == Label(clip, ev.1);
      assert ev in hits;
    }
    if |hits| > 0 {
      var ev :| ev in hits;
    }
  }

  // The label list is specified over any decoding of the clip entries into
  // (clip, events) pairs; the loader's decoding is EventsEntry.

  /** All labels of the decoded clips. */
  function ClipLabels<E>(entries: seq<E>, decode: E -> (string, map<int, string>)): set<string>
  {
    if entries == [] then {}
    else
      var e := decode(entries[|entries| - 1]);
      ClipLabels(entries[..|entries| - 1], decode) + LabelsOf(e.0, e.1.Items)
  }

  /** The number of labels listed: one per event, summed over the clips. */
  function ClipEventCount<E>(entries: seq<E>, decode: E -> (string, map<int, string>)): nat
  {
    if entries == [] then 0
    else ClipEventCount(entries[..|entries| - 1], decode) + |decode(entries[|entries| - 1]).1|
  }

  /** How many times x is listed: its occurrences summed over the clips. */
  function ClipLabelCount<E>(entries: seq<E>, decode: E -> (string, map<int, string>), x: string): nat
  {
    if entries == [] then 0
    else
      var e := decode(entries[|entries| - 1]);
      ClipLabelCount(entries[..|entries| - 1], decode, x) + LabelCount(e.0, e.1.Items, x)
  }

  /** A name occurs in the list exactly when it is one of the labels. */
  lemma {:induction false} ClipLabelCountPositive<E>(entries: seq<E>, decode: E -> (string, map<int, string>), x: string)
    ensures ClipLabelCount(entries, decode, x) > 0 <==> x in ClipLabels(entries, decode)
  {
    if entries != [] {
      var e := decode(entries[|entries| - 1]);
      ClipLabelCountPositive(entries[..|entries| - 1], decode, x);
      LabelCountPositive(e.0, e.1.Items, x);
    }
  }

  /** x is the label of event t of the i-th decoded clip. */
  ghost predicate LabelOfEvent<E>(entries: seq<E>, decode: E -> (string, map<int, string>), i: int, t: int, x: string)
  {
    0 <= i < |entries| && t in decode(entries[i]).1 && x == Label(decode(entries[i]).0, decode(entries[i]).1[t])
  }

  /** Every listed label names an event of some clip. */
  lemma {:induction false} ClipLabelsSound<E>(entries: seq<E>, decode: E -> (string, map<int, string>), x: string)
    returns (i: int, t: int)
    requires x in ClipLabels(entries, decode)
    ensures LabelOfEvent(entries, decode, i, t, x)
  {
    var n := |entries| - 1;
    var front := entries[..n];
    var e := decode(entries[n]);
    if x in ClipLabels(front, decode) {
      i, t := ClipLabelsSound(front, decode, x);
      assert entries[i] == front[i];
    } else {
      i := n;
      t := LabelsOfWitness(e.0, e.1, x);
    }
  }

  /** Every event of every clip has its label listed. */
  lemma {:induction false} ClipLabelsComplete<E>(entries: seq<E>, decode: E -> (string, map<int, string>),
                                                 i: int, t: int, x: string)
    requires LabelOfEvent(entries, decode, i, t, x)
    ensures x in ClipLabels(entries, decode)
  {
    var n := |entries| - 1;
    var front := entries[..n];
    if i < n {
      assert front[i] == entries[i];
      ClipLabelsComplete(front, decode, i, t, x);
    } else {
      LabelsOfHas(decode(entries[n]).0, decode(entries[n]).1, t);
    }
  }

  /** A label is listed exactly when some clip has an event it names. */
  lemma ClipLabelsIff<E>(entries: seq<E>, decode: E -> (string, map<int, string>), x: string)
    ensures x in ClipLabels(entries, decode) <==> exists i, t :: LabelOfEvent(entries, decode, i, t, x)
  {
    if x in ClipLabels(entries, decode) {
      var i, t := ClipLabelsSound(entries, decode, x);
    }
    forall i, t | LabelOfEvent(entries, decode, i, t, x)
      ensures x in ClipLabels(entries, decode)
    {
      ClipLabelsComplete(entries, decode, i, t, x);
    }
  }

  /** The names held in a list. */
  function Listed(names: seq<string>): set<string>
  {
    set x | x in names
  }

  lemma ListedAppend(names: seq<string>, x: string)
    ensures Listed(names + [x]) == Listed(names) + {x}
  {
  }

  /** Appends the label of every event of one clip, visiting the table's pairs in its own order. */
  method AddEventLabels(names: seq<string>, clip: string, events: map<int, string>) returns (r: seq<string>)
    ensures |r| == |names| + |events|
    ensures Listed(r) == Listed(names) + LabelsOf(clip, events.Items)
    ensures forall x :: multiset(r)[x] == multiset(names)[x] + LabelCount(clip, events.Items, x)
  {
    r := names;
    var pending := events.Items;
    while pending != {}
      invariant pending <= events.Items
      invariant |r| == |names| + |events.Items - pending|
      invariant Listed(r) == Listed(names) + LabelsOf(clip, events.Items - pending)
      invariant forall x :: multiset(r)[x] == multiset(names)[x] + LabelCount(clip, events.Items - pending, x)
      decreases pending
    {
      var eventIt :| eventIt in pending;
      assert events.Items - (pending - {eventIt}) == (events.Items - pending) + {eventIt};
      LabelsOfAdd(clip, events.Items - pending, eventIt);
      LabelCountsAppend(names, r, clip, events.Items - pending, eventIt);
      ListedAppend(r, Label(clip, eventIt.1));
      r := r + [Label(clip, eventIt.1)];
      pending := pending - {eventIt};
    }
    assert events.Items - pending == events.Items;
  }

  method FillEventTriggers(entries: seq<(string, Json)>)
    returns (table: map<string, map<int, string>>, names: seq<string>)
    requires WellFormed(JObject(entries))
    ensures table == Tabulate(entries, EventsEntry)
    ensures |names| == ClipEventCount(entries, EventsEntry)
    ensures Listed(names) == ClipLabels(entries, EventsEntry)
    ensures forall x :: multiset(names)[x] == ClipLabelCount(entries, EventsEntry, x)
  {
    table := map[];
    names := [];
    for i := 0 to |entries|
      invariant table == Tabulate(entries[..i], EventsEntry)
      invariant |names| == ClipEventCount(entries[..i], EventsEntry)
      invariant Listed(names) == ClipLabels(entries[..i], EventsEntry)
      invariant forall x :: multiset(names)[x] == ClipLabelCount(entries[..i], EventsEntry, x)
    {
      assert entries[..i + 1][..i] == entries[..i];
      var clip := entries[i].0;
      var events := FillTable(AsArray(entries[i].1), EventEntry);
      table := table[clip := events];
      names := AddEventLabels(names, clip, events);
    }
    assert entries[..|entries|] == entries;
  }

  // ---------------------------------------------------------------------------
  // skinSwapList: swap name -> set of region names

  /** The region names of a swap's items. */
  function SwapItems(items: seq<Json>): set<string>
  {
    set i | 0 <= i < |items| :: AsString(items[i])
  }

  function SwapEntry(e: (string, Json)): (string, set<string>)
  {
    (e.0, SwapItems(GetArrayField(GetObjectField(AsObject(e.1), "swap"), "swap_items")))
  }

  /** The entry names of an object, in order. */
  function EntryNames(entries: seq<(string, Json)>): (r: seq<string>)
    ensures |r| == |entries| && forall i :: 0 <= i < |entries| ==> r[i] == entries[i].0
  {
    if entries == [] then [] else EntryNames(entries[..|entries| - 1]) + [entries[|entries| - 1].0]
  }

  /**
   * In a uniquely named section, the skin-swap name list holds each key of the
   * skin-swap table exactly once.
   */
  lemma SkinSwapNamesAreKeys(entries: seq<(string, Json)>)
    requires DistinctNames(entries)
    ensures Listed(EntryNames(entries)) == Tabulate(entries, SwapEntry).Keys
    ensures |EntryNames(entries)| == |Tabulate(entries, SwapEntry)|
  {
    var names := EntryNames(entries);
    forall x
      ensures x in Listed(names) <==> x in Tabulate(entries, SwapEntry)
    {
      TabulateKeys(entries, SwapEntry, x);
      if x in Tabulate(entries, SwapEntry) {
        var i :| 0 <= i < |entries| && SwapEntry(entries[i]).0 == x;
        assert names[i] == x;
      }
    }
    TabulateSize(entries, SwapEntry);
  }

  method ReadSwapSet(items: seq<Json>) returns (s: set<string>)
    ensures s == SwapItems(items)
  {
    s := {};
    for i := 0 to |items|
      invariant s == SwapItems(items[..i])
    {
      assert forall k :: 0 <= k < i ==> items[..i + 1][k] == items[..i][k];
      s := s + {AsString(items[i])};
    }
    assert items[..|items|] == items;
  }

  method FillSkinSwaps(entries: seq<(string, Json)>)
    returns (table: map<string, set<string>>, names: seq<string>)
    requires WellFormed(JObject(entries))
    ensures table == Tabulate(entries, SwapEntry)
    ensures names == EntryNames(entries)
  {
    table := map[];
    names := [];
    for i := 0 to |entries|
      invariant table == Tabulate(entries[..i], SwapEntry)
      invariant names == EntryNames(entries[..i])
    {
      assert entries[..i + 1][..i] == entries[..i];
      var swapName := entries[i].0;
      var swapData := GetObjectField(AsObject(entries[i].1), "swap");
      var newSwapSet := ReadSwapSet(GetArrayField(swapData, "swap_items"));
      table := table[swapName := newSwapSet];
      names := names + [swapName];
    }
    assert entries[..|entries|] == entries;
  }

  // ---------------------------------------------------------------------------
  // physicsData: clip -> motor -> bone names, with tuning carried over a reload

  /** The user tuning of a chain, which a reload keeps. */
  datatype Tuning = Tuning(active: bool, stiffness: real, damping: real)

  /** FBendPhysicsChain. */
  datatype BendPhysicsChain = BendPhysicsChain(
    motorName: string, animClipName: string,
    boneNames: seq<string>, numBones: nat, tuning: Tuning)

  /**
   * The tuning a new (clip, motor) chain gets: that of the last previous chain with
   * the same clip and motor, or `untuned` when there is none.
   */
  function Carried(olds: seq<BendPhysicsChain>, clip: string, motor: string, untuned: Tuning): Tuning
  {
    if olds == [] then untuned
    else
      var c := olds[|olds| - 1];
      if c.animClipName == clip && c.motorName == motor then c.tuning
      else Carried(olds[..|olds| - 1], clip, motor, untuned)
  }

  /** Without a matching previous chain, the new chain is untuned. */
  lemma {:induction false} CarriedNone(olds: seq<BendPhysicsChain>, clip: string, motor: string, untuned: Tuning)
    requires forall i :: 0 <= i < |olds| ==> !(olds[i].animClipName == clip && olds[i].motorName == motor)
    ensures Carried(olds, clip, motor, untuned) == untuned
  {
    if olds != [] {
      var front := olds[..|olds| - 1];
      assert forall i :: 0 <= i < |front| ==> front[i] == olds[i];
      CarriedNone(front, clip, motor, untuned);
    }
  }

  /** With one, the last matching previous chain hands over its tuning. */
  lemma {:induction false} CarriedLast(olds: seq<BendPhysicsChain>, clip: string, motor: string, untuned: Tuning, i: int)
    requires 0 <= i < |olds| && olds[i].animClipName == clip && olds[i].motorName == motor
    requires forall j :: i < j < |olds| ==> !(olds[j].animClipName == clip && olds[j].motorName == motor)
    ensures Carried(olds, clip, motor, untuned) == olds[i].tuning
  {
    if i < |olds| - 1 {
      var front := olds[..|olds| - 1];
      assert forall j :: 0 <= j < |front| ==> front[j] == olds[j];
      CarriedLast(front, clip, motor, untuned, i);
    }
  }

  /** The loop over the previous chains: each match overwrites the tuning. */
  method CarryTuning(olds: seq<BendPhysicsChain>, clip: string, motor: string, untuned: Tuning) returns (t: Tuning)
    ensures t == Carried(olds, clip, motor, untuned)
  {
    t := untuned;
    for i := 0 to |olds|
      invariant t == Carried(olds[..i], clip, motor, untuned)
    {
      assert olds[..i + 1][..i] == olds[..i];
      if olds[i].animClipName == clip && olds[i].motorName == motor {
        t := olds[i].tuning;
      }
    }
    assert olds[..|olds|] == olds;
  }

  /** The bone names of a motor's array. */
  function NamesOf(items: seq<Json>): seq<string>
  {
    if items == [] then [] else NamesOf(items[..|items| - 1]) + [AsString(items[|items| - 1])]
  }

  lemma {:induction false} NamesOfAt(items: seq<Json>)
    ensures |NamesOf(items)| == |items|
    ensures forall i :: 0 <= i < |items| ==> NamesOf(items)[i] == AsString(items[i])
  {
    if items != [] {
      NamesOfAt(items[..|items| - 1]);
    }
  }

  method ReadNames(items: seq<Json>) returns (names: seq<string>)
    ensures names == NamesOf(items)
  {
    names := [];
    for i := 0 to |items|
      invariant names == NamesOf(items[..i])
    {
      assert items[..i + 1][..i] == items[..i];
      names := names + [AsString(items[i])];
    }
    assert items[..|items|] == items;
  }

  /** The chain decoded for one motor entry of a clip. */
  function NewChain(clip: string, motor: (string, Json), olds: seq<BendPhysicsChain>, untuned: Tuning): BendPhysicsChain
  {
    var boneObjs := AsArray(motor.1);
    BendPhysicsChain(motor.0, clip, NamesOf(boneObjs), |boneObjs|, Carried(olds, clip, motor.0, untuned))
  }

  /** The chains of one clip, one per motor entry, in order. */
  function MotorChains(clip: string, motors: seq<(string, Json)>, olds: seq<BendPhysicsChain>, untuned: Tuning)
    : seq<BendPhysicsChain>
  {
    if motors == [] then []
    else MotorChains(clip, motors[..|motors| - 1], olds, untuned) + [NewChain(clip, motors[|motors| - 1], olds, untuned)]
  }

  /** The new chain list: the chains of every clip, clip by clip. */
  function ChainsOf(entries: seq<(string, Json)>, olds: seq<BendPhysicsChain>, untuned: Tuning): seq<BendPhysicsChain>
  {
    if entries == [] then []
    else
      var e := entries[|entries| - 1];
      ChainsOf(entries[..|entries| - 1], olds, untuned) + MotorChains(e.0, AsObject(e.1), olds, untuned)
  }

  method FillMotorChains(clip: string, motors: seq<(string, Json)>, olds: seq<BendPhysicsChain>, untuned: Tuning)
    returns (chains: seq<BendPhysicsChain>)
    ensures chains == MotorChains(clip, motors, olds, untuned)
  {
    chains := [];
    for i := 0 to |motors|
      invariant chains == MotorChains(clip, motors[..i], olds, untuned)
    {
      assert motors[..i + 1][..i] == motors[..i];
      var motorName := motors[i].0;
      var boneObjs := AsArray(motors[i].1);
      var boneNames := ReadNames(boneObjs);
      var tuning := CarryTuning(olds, clip, motorName, untuned);
      chains := chains + [BendPhysicsChain(motorName, clip, boneNames, |boneObjs|, tuning)];
    }
    assert motors[..|motors|] == motors;
  }

  method FillChains(entries: seq<(string, Json)>, olds: seq<BendPhysicsChain>, untuned: Tuning)
    returns (chains: seq<BendPhysicsChain>)
    requires WellFormed(JObject(entries))
    ensures chains == ChainsOf(entries, olds, untuned)
  {
    chains := [];
    for i := 0 to |entries|
      invariant chains == ChainsOf(entries[..i], olds, untuned)
    {
      assert entries[..i + 1][..i] == entries[..i];
      var motorChains := FillMotorChains(entries[i].0, AsObject(entries[i].1), olds, untuned);
      chains := chains + motorChains;
    }
    assert entries[..|entries|] == entries;
  }

  // ---------------------------------------------------------------------------
  // What the reload promises about the chain list

  /** Every chain carries the tuning the previous list gives its (clip, motor). */
  ghost predicate TunedFrom(chains: seq<BendPhysicsChain>, olds: seq<BendPhysicsChain>, untuned: Tuning)
  {
    forall i :: 0 <= i < |chains| ==>
      chains[i].tuning == Carried(olds, chains[i].animClipName, chains[i].motorName, untuned)
  }

  /** Some chain of the list has the given clip and motor. */
  ghost predicate HasChain(chains: seq<BendPhysicsChain>, clip: string, motor: string)
  {
    exists i :: 0 <= i < |chains| && chains[i].animClipName == clip && chains[i].motorName == motor
  }

  /** Each chain of the new list comes from a (clip, motor) entry of the document, with its bone list. */
  lemma {:induction false} ChainsFromDocument(entries: seq<(string, Json)>, olds: seq<BendPhysicsChain>,
                                              untuned: Tuning, c: BendPhysicsChain)
    requires c in ChainsOf(entries, olds, untuned)
    ensures exists i, j :: (0 <= i < |entries| && 0 <= j < |AsObject(entries[i].1)|
      && c == NewChain(entries[i].0, AsObject(entries[i].1)[j], olds, untuned))
  {
    var e := entries[|entries| - 1];
    var front := entries[..|entries| - 1];
    if c in ChainsOf(front, olds, untuned) {
      ChainsFromDocument(front, olds, untuned, c);
      var i, j :| 0 <= i < |front| && 0 <= j < |AsObject(front[i].1)|
        && c == NewChain(front[i].0, AsObject(front[i].1)[j], olds, untuned);
      assert entries[i] == front[i];
    } else {
      var j := MotorChainsFrom(e.0, AsObject(e.1), olds, untuned, c);
      assert entries[|entries| - 1] == e;
    }
  }

  lemma {:induction false} MotorChainsFrom(clip: string, motors: seq<(string, Json)>, olds: seq<BendPhysicsChain>,
                                           untuned: Tuning, c: BendPhysicsChain) returns (j: int)
    requires c in MotorChains(clip, motors, olds, untuned)
    ensures 0 <= j < |motors| && c == NewChain(clip, motors[j], olds, untuned)
  {
    var front := motors[..|motors| - 1];
    if c in MotorChains(clip, front, olds, untuned) {
      j := MotorChainsFrom(clip, front, olds, untuned, c);
      assert motors[j] == front[j];
    } else {
      j := |motors| - 1;
    }
  }

  /** Every chain of the new list has the tuning its (clip, motor) had in the previous list, or none. */
  lemma {:induction false} ChainsTuned(entries: seq<(string, Json)>, olds: seq<BendPhysicsChain>, untuned: Tuning)
    ensures TunedFrom(ChainsOf(entries, olds, untuned), olds, untuned)
  {
    var cs := ChainsOf(entries, olds, untuned);
    forall i | 0 <= i < |cs|
      ensures cs[i].tuning == Carried(olds, cs[i].animClipName, cs[i].motorName, untuned)
    {
      assert cs[i] in cs;
      ChainsFromDocument(entries, olds, untuned, cs[i]);
    }
  }

  /** Every (clip, motor) entry of the document has its chain in the new list. */
  lemma {:induction false} ChainsCover(entries: seq<(string, Json)>, olds: seq<BendPhysicsChain>, untuned: Tuning,
                                       i: int, j: int)
    requires 0 <= i < |entries| && 0 <= j < |AsObject(entries[i].1)|
    ensures HasChain(ChainsOf(entries, olds, untuned), entries[i].0, AsObject(entries[i].1)[j].0)
  {
    var front := entries[..|entries| - 1];
    var e := entries[|entries| - 1];
    var cs := ChainsOf(entries, olds, untuned);
    if i < |entries| - 1 {
      assert front[i] == entries[i];
      ChainsCover(front, olds, untuned, i, j);
      var k :| 0 <= k < |ChainsOf(front, olds, untuned)| && ChainsOf(front, olds, untuned)[k].animClipName == entries[i].0
        && ChainsOf(front, olds, untuned)[k].motorName == AsObject(entries[i].1)[j].0;
      assert cs[k] == ChainsOf(front, olds, untuned)[k];
    } else {
      var motors := AsObject(e.1);
      MotorChainsCover(e.0, motors, olds, untuned, j);
      var mc := MotorChains(e.0, motors, olds, untuned);
      var k :| 0 <= k < |mc| && mc[k].animClipName == e.0 && mc[k].motorName == motors[j].0;
      assert cs[|ChainsOf(front, olds, untuned)| + k] == mc[k];
    }
  }

  lemma {:induction false} MotorChainsCover(clip: string, motors: seq<(string, Json)>, olds: seq<BendPhysicsChain>,
                                            untuned: Tuning, j: int)
    requires 0 <= j < |motors|
    ensures HasChain(MotorChains(clip, motors, olds, untuned), clip, motors[j].0)
  {
    var front := motors[..|motors| - 1];
    var mc := MotorChains(clip, motors, olds, untuned);
    if j < |motors| - 1 {
      assert front[j] == motors[j];
      MotorChainsCover(clip, front, olds, untuned, j);
      var k :| 0 <= k < |MotorChains(clip, front, olds, untuned)|
        && MotorChains(clip, front, olds, untuned)[k].animClipName == clip
        && MotorChains(clip, front, olds, untuned)[k].motorName == motors[j].0;
      assert mc[k] == MotorChains(clip, front, olds, untuned)[k];
    } else {
      assert mc[|mc| - 1].motorName == motors[j].0;
    }
  }

  /**
   * Carrying from a list that already carries the previous tuning gives the same
   * tuning as carrying from the previous list itself.
   */
  lemma {:induction false} CarriedThrough(mid: seq<BendPhysicsChain>, olds: seq<BendPhysicsChain>, untuned: Tuning,
                                          clip: string, motor: string)
    requires TunedFrom(mid, olds, untuned) && HasChain(mid, clip, motor)
    ensures Carried(mid, clip, motor, untuned) == Carried(olds, clip, motor, untuned)
  {
    var c := mid[|mid| - 1];
    if !(c.animClipName == clip && c.motorName == motor) {
      var front := mid[..|mid| - 1];
      var k :| 0 <= k < |mid| && mid[k].animClipName == clip && mid[k].motorName == motor;
      assert front[k] == mid[k];
      assert forall i :: 0 <= i < |front| ==> front[i] == mid[i];
      CarriedThrough(front, olds, untuned, clip, motor);
    }
  }

  lemma {:induction false} MotorChainsThrough(clip: string, motors: seq<(string, Json)>, mid: seq<BendPhysicsChain>,
                                              olds: seq<BendPhysicsChain>, untuned: Tuning)
    requires TunedFrom(mid, olds, untuned)
    requires forall j :: 0 <= j < |motors| ==> HasChain(mid, clip, motors[j].0)
    ensures MotorChains(clip, motors, mid, untuned) == MotorChains(clip, motors, olds, untuned)
  {
    if motors != [] {
      var front := motors[..|motors| - 1];
      assert forall j :: 0 <= j < |front| ==> front[j] == motors[j];
      MotorChainsThrough(clip, front, mid, olds, untuned);
      CarriedThrough(mid, olds, untuned, clip, motors[|motors| - 1].0);
    }
  }

  lemma {:induction false} ChainsThrough(entries: seq<(string, Json)>, mid: seq<BendPhysicsChain>,
                                         olds: seq<BendPhysicsChain>, untuned: Tuning)
    requires TunedFrom(mid, olds, untuned)
    requires forall i, j :: 0 <= i < |entries| && 0 <= j < |AsObject(entries[i].1)| ==>
      HasChain(mid, entries[i].0, AsObject(entries[i].1)[j].0)
    ensures ChainsOf(entries, mid, untuned) == ChainsOf(entries, olds, untuned)
  {
    if entries != [] {
      var front := entries[..|entries| - 1];
      var e := entries[|entries| - 1];
      assert forall i :: 0 <= i < |front| ==> front[i] == entries[i];
      ChainsThrough(front, mid, olds, untuned);
      forall j | 0 <= j < |AsObject(e.1)|
        ensures HasChain(mid, e.0, AsObject(e.1)[j].0)
      {
        assert e == entries[|entries| - 1];
      }
      MotorChainsThrough(e.0, AsObject(e.1), mid, olds, untuned);
    }
  }

  /** Reloading the same document twice gives the chain list of reloading it once. */
  lemma ReloadIdempotent(entries: seq<(string, Json)>, olds: seq<BendPhysicsChain>, untuned: Tuning)
    ensures ChainsOf(entries, ChainsOf(entries, olds, untuned), untuned) == ChainsOf(entries, olds, untuned)
  {
    var once := ChainsOf(entries, olds, untuned);
    ChainsTuned(entries, olds, untuned);
    forall i, j | 0 <= i < |entries| && 0 <= j < |AsObject(entries[i].1)|
      ensures HasChain(once, entries[i].0, AsObject(entries[i].1)[j].0)
    {
      ChainsCover(entries, olds, untuned, i, j);
    }
    ChainsThrough(entries, once, olds, untuned);
  }
}
