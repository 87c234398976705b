/** A complete conversion records one place for every slot, and binding fills in
    exactly these places. */
module SecretBinding {
  import opened Wrappers
  import opened SecretModel
  import opened SecretTheorems

  // ----- where tokens stand -----

  ghost predicate Stands(n: Node, path: DestinationPath, i: nat)
    requires Wf(n)
  {
    Get(n, path) == Some(Token(i))
  }

  ghost predicate Absent(n: Node, i: nat)
    requires Wf(n)
  {
    forall path :: !Stands(n, path, i)
  }

  ghost predicate Only(n: Node, path: DestinationPath, i: nat)
    requires Wf(n)
  {
    Stands(n, path, i) && forall other :: Stands(n, other, i) ==> other == path
  }

  lemma GetChild(n: Node, k: nat, rest: DestinationPath)
    requires Wf(n) && n.Branch? && k < |n.children|
    ensures Ordinal(n.shape, |n.children|, PartOf(n.shape, k)) == Some(k)
    ensures Get(n, [PartOf(n.shape, k)] + rest) == Get(n.children[k], rest)
  {
    var part := PartOf(n.shape, k);
    var found := Ordinal(n.shape, |n.children|, part);
    assert found.Some? && PartOf(n.shape, found.value) == part;
    assert found.value == k;
    assert ([part] + rest)[1..] == rest;
  }

  lemma GetSplits(n: Node, path: DestinationPath) returns (k: nat)
    requires Wf(n) && n.Branch? && path != [] && Get(n, path).Some?
    ensures k < |n.children| && path == [PartOf(n.shape, k)] + path[1..] && Get(n, path) == Get(n.children[k], path[1..])
  {
    k := Ordinal(n.shape, |n.children|, path[0]).value;
  }

  // ----- recording -----

  /** From one list of slots to the next, each token of n got its place; a place
      that was taken before is still the same. */
  ghost predicate Recorded(n: Node, path: DestinationPath, before: seq<Slot>, after: seq<Slot>)
    requires Wf(n)
  {
    && Settled(before, after)
    && (forall rest: DestinationPath, i: nat :: Stands(n, rest, i) ==>
          i < |before| && before[i].destination == [] && after[i].destination == path + rest)
    && (forall i :: 0 <= i < |before| && Absent(n, i) ==> after[i] == before[i])
  }

  ghost predicate Settled(before: seq<Slot>, after: seq<Slot>) {
    && SameSources(before, after) && |before| == |after|
    && forall i :: 0 <= i < |before| && before[i].destination != [] ==> after[i] == before[i]
  }

  ghost predicate RecordedOf(n: Node, k: nat, path: DestinationPath, before: seq<Slot>, after: seq<Slot>)
    requires Wf(n) && n.Branch? && k <= |n.children|
  {
    && Settled(before, after)
    && (forall j: nat, rest: DestinationPath, i: nat :: 0 <= j < k && Stands(n.children[j], rest, i) ==>
          i < |before| && before[i].destination == [] && after[i].destination == path + [PartOf(n.shape, j)] + rest)
    && (forall i :: 0 <= i < |before| && AbsentOf(n, k, i) ==> after[i] == before[i])
  }

  ghost predicate AbsentOf(n: Node, k: nat, i: nat)
    requires Wf(n) && n.Branch? && k <= |n.children|
  {
    forall j :: 0 <= j < k ==> Absent(n.children[j], i)
  }

  lemma {:induction false} RecordReports(n: Node, path: DestinationPath, s: State)
    requires Wf(n) && KnowsTokens(n, |s.slots|)
    ensures s.diagnostics <= Record(n, path, s).diagnostics
    decreases n, if n.Branch? then |n.children| + 1 else 0
  {
    if n.Branch? { RecordOfReports(n, |n.children|, path, s); }
  }

  lemma {:induction false} RecordOfReports(n: Node, k: nat, path: DestinationPath, s: State)
    requires Wf(n) && KnowsTokens(n, |s.slots|) && n.Branch? && k <= |n.children|
    ensures s.diagnostics <= RecordOf(n, k, path, s).diagnostics
    decreases n, k
  {
    if k > 0 {
      RecordOfReports(n, k - 1, path, s);
      RecordReports(n.children[k - 1], path + [PartOf(n.shape, k - 1)], RecordOf(n, k - 1, path, s));
    }
  }

  /** Recording without a report gives every token its place. */
  lemma {:induction false} RecordsPlaces(n: Node, path: DestinationPath, s: State)
    requires Wf(n) && KnowsTokens(n, |s.slots|) && (path != [] || n.Branch?)
    requires Record(n, path, s).diagnostics == s.diagnostics
    ensures Recorded(n, path, s.slots, Record(n, path, s).slots)
    decreases n, if n.Branch? then |n.children| + 1 else 0
  {
    var after := Record(n, path, s);
    match n
    case Branch(shape, children) =>
      RecordsPlacesOf(n, |children|, path, s);
      BranchRecorded(n, path, s.slots, after.slots);
    case Token(t) =>
      forall rest: DestinationPath, i: nat | Stands(n, rest, i)
        ensures i < |s.slots| && s.slots[i].destination == [] && after.slots[i].destination == path + rest
      {
        assert rest == [] && i == t && path + rest == path;
      }
      assert Stands(n, [], t);
    case _ =>
      assert forall rest: DestinationPath, i: nat :: !Stands(n, rest, i);
  }

  lemma StandsBelow(n: Node, path: DestinationPath, i: nat) returns (k: nat)
    requires Wf(n) && n.Branch? && Stands(n, path, i)
    ensures k < |n.children| && path != [] && path == [PartOf(n.shape, k)] + path[1..] && Stands(n.children[k], path[1..], i)
  {
    k := GetSplits(n, path);
  }

  lemma PlaceBelow(n: Node, path: DestinationPath, before: seq<Slot>, after: seq<Slot>, rest: DestinationPath, i: nat)
    requires Wf(n) && n.Branch? && RecordedOf(n, |n.children|, path, before, after) && Stands(n, rest, i)
    ensures i < |before| == |after| && before[i].destination == [] && after[i].destination == path + rest
  {
    var k := StandsBelow(n, rest, i);
    hide Get, Stands, Settled;
    assert path + [PartOf(n.shape, k)] + rest[1..] == path + ([PartOf(n.shape, k)] + rest[1..]);
  }

  lemma BranchRecorded(n: Node, path: DestinationPath, before: seq<Slot>, after: seq<Slot>)
    requires Wf(n) && n.Branch? && RecordedOf(n, |n.children|, path, before, after)
    ensures Recorded(n, path, before, after)
  {
    forall i | 0 <= i < |before| && Absent(n, i) ensures after[i] == before[i] {
      AbsentBelow(n, i);
      hide Stands, Absent;
    }
    assert Settled(before, after);
    hide RecordedOf, Settled, Stands;
    forall rest: DestinationPath, i: nat | Stands(n, rest, i)
      ensures i < |before| == |after| && before[i].destination == [] && after[i].destination == path + rest
    {
      PlaceBelow(n, path, before, after, rest, i);
    }
  }

  lemma AbsentBelow(n: Node, i: nat)
    requires Wf(n) && n.Branch? && Absent(n, i)
    ensures AbsentOf(n, |n.children|, i)
  {
    forall j, rest | 0 <= j < |n.children| ensures !Stands(n.children[j], rest, i) {
      GetChild(n, j, rest);
      assert !Stands(n, [PartOf(n.shape, j)] + rest, i);
    }
  }

  lemma {:induction false} RecordsPlacesOf(n: Node, k: nat, path: DestinationPath, s: State)
    requires Wf(n) && KnowsTokens(n, |s.slots|) && n.Branch? && k <= |n.children|
    requires RecordOf(n, k, path, s).diagnostics == s.diagnostics
    ensures RecordedOf(n, k, path, s.slots, RecordOf(n, k, path, s).slots)
    decreases n, k
  {
    if k > 0 {
      var middle := RecordOf(n, k - 1, path, s);
      var child, at := n.children[k - 1], path + [PartOf(n.shape, k - 1)];
      RecordOfReports(n, k - 1, path, s);
      RecordReports(child, at, middle);
      RecordsPlacesOf(n, k - 1, path, s);
      RecordsPlaces(child, at, middle);
      OneMore(n, k, path, s.slots, middle.slots, Record(child, at, middle).slots);
    }
  }

  lemma OneMore(n: Node, k: nat, path: DestinationPath, before: seq<Slot>, middle: seq<Slot>, after: seq<Slot>)
    requires Wf(n) && n.Branch? && 0 < k <= |n.children|
    requires RecordedOf(n, k - 1, path, before, middle)
    requires Recorded(n.children[k - 1], path + [PartOf(n.shape, k - 1)], middle, after)
    ensures RecordedOf(n, k, path, before, after)
  {
    hide Get, Stands;
    forall j: nat, rest: DestinationPath, i: nat | 0 <= j < k && Stands(n.children[j], rest, i)
      ensures i < |before| && before[i].destination == [] && after[i].destination == path + [PartOf(n.shape, j)] + rest
    {
      if j < k - 1 {
        assert middle[i].destination == path + [PartOf(n.shape, j)] + rest;
        assert |middle[i].destination| > 0;
      } else {
        assert middle[i].destination == [];
      }
    }
    forall i | 0 <= i < |before| && AbsentOf(n, k, i) ensures after[i] == before[i] {
      assert AbsentOf(n, k - 1, i) && Absent(n.children[k - 1], i);
    }
  }

  // ----- a complete conversion -----

  predicate Unplaced(slots: seq<Slot>) {
    forall i :: 0 <= i < |slots| ==> slots[i].destination == []
  }

  lemma {:induction false} UnplacedReports(s: State, k: nat)
    requires k <= |s.slots|
    ensures ReportUnplaced(s, k).slots == s.slots && s.diagnostics <= ReportUnplaced(s, k).diagnostics
    ensures ReportUnplaced(s, k).diagnostics == s.diagnostics <==> forall i :: 0 <= i < k ==> s.slots[i].destination != []
  {
    if k > 0 { UnplacedReports(s, k - 1); }
  }

  /** In a complete conversion each slot stands in one place, which it records. */
  lemma CompletePlacesAll(draft: Node, s: State)
    requires Wf(draft) && draft.Branch? && KnowsTokens(draft, |s.slots|) && Unplaced(s.slots)
    requires Complete(Finalize(draft, s))
    ensures var slots := Finalize(draft, s).slots;
      && SameSources(s.slots, slots) && |slots| == |s.slots|
      && forall i :: 0 <= i < |slots| ==> slots[i].destination != [] && Only(draft, slots[i].destination, i)
  {
    var recorded := Record(draft, [], s);
    RecordReports(draft, [], s);
    UnplacedReports(recorded, |recorded.slots|);
    RecordsPlaces(draft, [], s);
    forall i | 0 <= i < |s.slots| ensures Only(draft, recorded.slots[i].destination, i) {
      assert !Absent(draft, i);
      var path :| Stands(draft, path, i);
      assert [] + path == path;
      forall other | Stands(draft, other, i) ensures other == path { assert [] + other == other; }
    }
  }

  /** No two slots of a complete conversion are written to the same place. */
  lemma DestinationsAreDistinct(draft: Node, s: State, i: nat, j: nat)
    requires Wf(draft) && draft.Branch? && KnowsTokens(draft, |s.slots|) && Unplaced(s.slots)
    requires Complete(Finalize(draft, s)) && i < |s.slots| && j < |s.slots| && i != j
    ensures var slots := Finalize(draft, s).slots;
      |slots| == |s.slots| && slots[i].destination != slots[j].destination
  {
    CompletePlacesAll(draft, s);
    assert Only(draft, Finalize(draft, s).slots[i].destination, i);
    assert Only(draft, Finalize(draft, s).slots[j].destination, j);
  }

  /** A token that is the whole draft has no path: such a conversion is never complete. */
  lemma RootTokenIsIncomplete(i: nat, s: State)
    requires i < |s.slots| && Unplaced(s.slots)
    ensures !Complete(Finalize(Token(i), s))
  {
    var recorded := Record(Token(i), [], s);
    UnplacedReports(recorded, |recorded.slots|);
    assert recorded.slots[i].destination == [];
  }

  // ----- filling -----

  lemma {:induction false} FillIsWf(input: Node, slots: seq<Slot>, bound: nat, n: Node)
    requires Wf(input) && Wf(n)
    ensures Wf(Fill(input, slots, bound, n))
  {
    match n
    case Branch(_, children) =>
      forall k | 0 <= k < |children| ensures Wf(Fill(input, slots, bound, children[k])) {
        FillIsWf(input, slots, bound, children[k]);
      }
    case Token(i) =>
      if i < |slots| && At(input, slots[i].source).Some? { AtIsWf(input, slots[i].source); }
    case _ =>
  }

  /** Filling works place by place: outside the tokens the tree is the draft's. */
  lemma {:induction false} GetFilled(input: Node, slots: seq<Slot>, bound: nat, n: Node, path: DestinationPath)
    requires Wf(input) && Wf(n) && Wf(Fill(input, slots, bound, n)) && Get(n, path).Some?
    ensures Get(Fill(input, slots, bound, n), path) == Some(Fill(input, slots, bound, Get(n, path).value))
    decreases |path|
  {
    if path != [] {
      var k := GetSplits(n, path);
      FillIsWf(input, slots, bound, n.children[k]);
      GetFilled(input, slots, bound, n.children[k], path[1..]);
      GetChild(Fill(input, slots, bound, n), k, path[1..]);
    }
  }

  lemma {:induction false} FillWithout(input: Node, slots: seq<Slot>, k: nat, n: Node)
    requires Wf(n) && Absent(n, k)
    ensures Fill(input, slots, k + 1, n) == Fill(input, slots, k, n)
  {
    match n
    case Token(i) =>
      assert !Stands(n, [], k);
    case Branch(_, children) =>
      AbsentBelow(n, k);
      forall j | 0 <= j < |children| ensures Fill(input, slots, k + 1, children[j]) == Fill(input, slots, k, children[j]) {
        FillWithout(input, slots, k, children[j]);
      }
    case _ =>
  }

  /** Writing the value of slot k where it stands fills one slot more. */
  lemma {:induction false} PutFills(input: Node, slots: seq<Slot>, k: nat, n: Node, path: DestinationPath)
    requires Wf(n) && Only(n, path, k) && k < |slots| && At(input, slots[k].source).Some?
    requires var filled := Fill(input, slots, k, n); Wf(filled) && Get(filled, path).Some?
    ensures Put(Fill(input, slots, k, n), path, At(input, slots[k].source).value) == Fill(input, slots, k + 1, n)
    decreases |path|
  {
    if path != [] {
      var j := GetSplits(n, path);
      var filled, more := Fill(input, slots, k, n), Fill(input, slots, k + 1, n);
      GetChild(filled, j, path[1..]);
      OnlyBelow(n, j, path, k);
      PutFills(input, slots, k, n.children[j], path[1..]);
      forall m | 0 <= m < |n.children| && m != j ensures filled.children[m] == more.children[m] {
        FillWithout(input, slots, k, n.children[m]);
      }
      var put := Put(filled, path, At(input, slots[k].source).value);
      assert put.children == more.children;
    }
  }

  lemma OnlyBelow(n: Node, j: nat, path: DestinationPath, i: nat)
    requires Wf(n) && n.Branch? && j < |n.children| && Only(n, path, i)
    requires path != [] && path == [PartOf(n.shape, j)] + path[1..]
    ensures Only(n.children[j], path[1..], i)
    ensures forall m :: 0 <= m < |n.children| && m != j ==> Absent(n.children[m], i)
  {
    GetChild(n, j, path[1..]);
    forall m, rest | 0 <= m < |n.children| && Stands(n.children[m], rest, i) ensures m == j && rest == path[1..] {
      GetChild(n, m, rest);
      assert Stands(n, [PartOf(n.shape, m)] + rest, i);
      assert ([PartOf(n.shape, m)] + rest)[0] == path[0] && ([PartOf(n.shape, m)] + rest)[1..] == rest;
      GetChild(n, j, rest);
    }
  }

  // ----- binding -----

  predicate SourcesOk(input: Node, slots: seq<Slot>) {
    forall i :: 0 <= i < |slots| ==> SourceValue(input, slots[i]).Some?
  }

  lemma {:induction false} BindFills(input: Node, draft: Node, slots: seq<Slot>, k: nat)
    requires Wf(input) && Wf(draft) && k <= |slots| && SourcesOk(input, slots)
    requires forall i :: 0 <= i < |slots| ==> slots[i].destination != [] && Only(draft, slots[i].destination, i)
    requires Wf(Placed(draft))
    ensures Bind(input, Placed(draft), slots, k) == Some(Fill(input, slots, k, draft))
  {
    if k == 0 {
      NothingBound(input, slots, draft);
    } else {
      BindFills(input, draft, slots, k - 1);
      BindsOne(input, draft, slots, k - 1);
    }
  }

  lemma {:induction false} NothingBound(input: Node, slots: seq<Slot>, n: Node)
    ensures Fill(input, slots, 0, n) == Placed(n)
  {
    if n.Branch? {
      forall k | 0 <= k < |n.children| ensures Fill(input, slots, 0, n.children[k]) == Placed(n.children[k]) {
        NothingBound(input, slots, n.children[k]);
      }
      assert Fill(input, slots, 0, n).children == Placed(n).children;
    }
  }

  lemma BindsOne(input: Node, draft: Node, slots: seq<Slot>, k: nat)
    requires Wf(input) && Wf(draft) && k < |slots| && SourcesOk(input, slots)
    requires forall i :: 0 <= i < |slots| ==> slots[i].destination != [] && Only(draft, slots[i].destination, i)
    requires Wf(Fill(input, slots, k, draft))
    ensures BindSlot(input, slots, k, Fill(input, slots, k, draft)) == Some(Fill(input, slots, k + 1, draft))
  {
    var path := slots[k].destination;
    assert Only(draft, path, k) && SourceValue(input, slots[k]).Some?;
    forall j | 0 <= j < k ensures slots[j].destination != path {
      assert Only(draft, slots[j].destination, j);
    }
    GetFilled(input, slots, k, draft, path);
    PutFills(input, slots, k, draft, path);
  }

  /** Binding a complete conversion always succeeds, and changes the draft at its
      slots only, each to the value of its source path. */
  lemma BindingFillsTheSlots(input: Node, draft: Node, s: State)
    requires Wf(input) && Wf(draft) && draft.Branch? && KnowsTokens(draft, |s.slots|)
    requires Unplaced(s.slots) && SourcesOk(input, s.slots) && Complete(Finalize(draft, s))
    ensures var slots := Finalize(draft, s).slots;
      && Wf(Placed(draft))
      && Bind(input, Placed(draft), slots, |slots|) == Some(Fill(input, slots, |slots|, draft))
      && (forall path :: Get(draft, path).Some? ==>
            Get(Bind(input, Placed(draft), slots, |slots|).value, path) == Some(Fill(input, slots, |slots|, Get(draft, path).value)))
  {
    var slots := Finalize(draft, s).slots;
    CompletePlacesAll(draft, s);
    FillIsWf(Null, [], 0, draft);
    FillIsWf(input, slots, |slots|, draft);
    forall i | 0 <= i < |slots| ensures SourceValue(input, slots[i]).Some? {
      assert SourceValue(input, s.slots[i]).Some?;
    }
    BindFills(input, draft, slots, |slots|);
    forall path | Get(draft, path).Some?
      ensures Get(Fill(input, slots, |slots|, draft), path) == Some(Fill(input, slots, |slots|, Get(draft, path).value))
    {
      GetFilled(input, slots, |slots|, draft, path);
    }
  }

  /** Wherever a complete draft holds the settings of a source value, the bound
      configuration holds that value again. */
  lemma ExternaliseThenBind(input: Node, draft: Node, s: State, publics: set<string>, value: Node, source: SourcePath, force: bool, start: State, path: DestinationPath)
    requires Wf(input) && Wf(draft) && draft.Branch? && KnowsTokens(draft, |s.slots|)
    requires Unplaced(s.slots) && SourcesOk(input, s.slots) && Complete(Finalize(draft, s))
    requires Wf(value) && Plain(value) && At(input, source) == Some(value)
    requires var (node, after) := Settings(publics, value, source, force, start);
      after.diagnostics == start.diagnostics && after.slots <= s.slots && Get(draft, path) == Some(node)
    ensures var slots := Finalize(draft, s).slots;
      Wf(Placed(draft)) &&
      var bound := Bind(input, Placed(draft), slots, |slots|);
      bound.Some? && Get(bound.value, path) == Some(value)
  {
    var slots := Finalize(draft, s).slots;
    var (node, after) := Settings(publics, value, source, force, start);
    BindingFillsTheSlots(input, draft, s);
    CompletePlacesAll(draft, s);
    assert SameSources(after.slots, slots);
    SettingsFill(input, publics, value, source, force, start, slots);
  }

  // ----- an option tree on its own -----

  predicate Free(slots: seq<Slot>, from: nat, to: nat) {
    from <= to <= |slots| && forall i :: from <= i < to ==> slots[i].destination == []
  }

  /** The slots of a range got a place, and no other slot changed. */
  predicate Took(before: seq<Slot>, after: seq<Slot>, from: nat, to: nat) {
    && |after| == |before| && to <= |after|
    && (forall i :: from <= i < to ==> after[i].destination != [])
    && (forall i :: 0 <= i < |after| && !(from <= i < to) ==> after[i] == before[i])
  }

  lemma TookBoth(before: seq<Slot>, middle: seq<Slot>, after: seq<Slot>, from: nat, mid: nat, to: nat)
    requires from <= mid <= to && Took(before, middle, from, mid) && Took(middle, after, mid, to)
    ensures Took(before, after, from, to)
  {
  }

  /** The tokens of an option tree are its new slots, each standing once. */
  lemma {:induction false} SettingsRecord(publics: set<string>, value: Node, path: SourcePath, force: bool, s: State, at: DestinationPath, r: State)
    requires Wf(value) && Plain(value) && at != []
    requires var (n, after) := Settings(publics, value, path, force, s);
      Wf(n) && KnowsTokens(n, |r.slots|) && Free(r.slots, |s.slots|, |after.slots|)
    ensures var (n, after) := Settings(publics, value, path, force, s);
      Record(n, at, r).diagnostics == r.diagnostics && Took(r.slots, Record(n, at, r).slots, |s.slots|, |after.slots|)
    decreases value, if value.Branch? then |value.children| + 1 else 0
  {
    if value.Branch? {
      var n := Settings(publics, value, path, force, s).0;
      assert n.children == SettingsOf(publics, value, |value.children|, path, force, s).1;
      SettingsOfRecord(publics, value, |value.children|, path, force, s, n, at, r);
      assert Record(n, at, r) == RecordOf(n, |n.children|, at, r);
    }
  }

  lemma {:induction false} SettingsOfRecord(publics: set<string>, value: Node, k: nat, path: SourcePath, force: bool, s: State, whole: Node, at: DestinationPath, r: State)
    requires Wf(value) && Plain(value) && value.Branch? && k <= |value.children|
    requires Wf(whole) && whole.Branch? && KnowsTokens(whole, |r.slots|)
    requires var (_, nodes, after) := SettingsOf(publics, value, k, path, force, s);
      nodes <= whole.children && Free(r.slots, |s.slots|, |after.slots|)
    ensures var (_, nodes, after) := SettingsOf(publics, value, k, path, force, s);
      && RecordOf(whole, |nodes|, at, r).diagnostics == r.diagnostics
      && Took(r.slots, RecordOf(whole, |nodes|, at, r).slots, |s.slots|, |after.slots|)
    decreases value, k
  {
    if k > 0 {
      var (keys, nodes, before) := SettingsOf(publics, value, k - 1, path, force, s);
      SettingsOfExtend(publics, value, k - 1, path, force, s);
      var inner, child := Force(value.shape, k - 1, force), value.children[k - 1];
      if value.shape.Array? || Declared(publics, value.shape.keys[k - 1]) {
        SettingsExtend(publics, child, path + [k - 1], inner, before);
        var (node, after) := Settings(publics, child, path + [k - 1], inner, before);
        assert SettingsOf(publics, value, k, path, force, s).1 == nodes + [node];
        assert SettingsOf(publics, value, k, path, force, s).2 == after;
        var middle := RecordOf(whole, |nodes|, at, r);
        hide SettingsOf, Settings, Declared, PrivateKey, RecordOf, Record;
        assert nodes <= nodes + [node] <= whole.children && whole.children[|nodes|] == (nodes + [node])[|nodes|] == node;
        SettingsOfRecord(publics, value, k - 1, path, force, s, whole, at, r);
        assert Wf(node) && KnowsTokens(node, |middle.slots|);
        SettingsRecord(publics, child, path + [k - 1], inner, before, at + [PartOf(whole.shape, |nodes|)], middle);
        var last := Record(node, at + [PartOf(whole.shape, |nodes|)], middle);
        RecordOfNext(whole, |nodes|, at, r);
        TookBoth(r.slots, middle.slots, last.slots, |s.slots|, |before.slots|, |after.slots|);
      } else {
        SettingsOfRecord(publics, value, k - 1, path, force, s, whole, at, r);
      }
    }
  }

  lemma RecordOfNext(n: Node, k: nat, at: DestinationPath, r: State)
    requires Wf(n) && n.Branch? && KnowsTokens(n, |r.slots|) && k < |n.children|
    ensures RecordOf(n, k + 1, at, r) == Record(n.children[k], at + [PartOf(n.shape, k)], RecordOf(n, k, at, r))
  {
  }

  lemma {:induction false} SettingsSources(input: Node, publics: set<string>, value: Node, path: SourcePath, force: bool, s: State)
    requires Wf(value) && At(input, path) == Some(value) && path != [] && SourcesOk(input, s.slots)
    ensures SourcesOk(input, Settings(publics, value, path, force, s).1.slots)
    decreases value, if value.Branch? then |value.children| + 1 else 0
  {
    if value.Branch? { SettingsOfSources(input, publics, value, |value.children|, path, force, s); }
  }

  lemma {:induction false} SettingsOfSources(input: Node, publics: set<string>, value: Node, k: nat, path: SourcePath, force: bool, s: State)
    requires Wf(value) && value.Branch? && k <= |value.children|
    requires At(input, path) == Some(value) && path != [] && SourcesOk(input, s.slots)
    ensures SourcesOk(input, SettingsOf(publics, value, k, path, force, s).2.slots)
    decreases value, k
  {
    if k > 0 {
      hide At;
      SettingsOfSources(input, publics, value, k - 1, path, force, s);
      if value.shape.Array? || Declared(publics, value.shape.keys[k - 1]) {
        AtExtends(input, path, k - 1);
        SettingsSources(input, publics, value.children[k - 1], path + [k - 1], Force(value.shape, k - 1, force),
                        SettingsOf(publics, value, k - 1, path, force, s).2);
      }
    }
  }

  lemma {:induction false} SettingsFree(publics: set<string>, value: Node, path: SourcePath, force: bool, s: State)
    requires Wf(value) && Unplaced(s.slots)
    ensures Unplaced(Settings(publics, value, path, force, s).1.slots)
    decreases value, if value.Branch? then |value.children| + 1 else 0
  {
    if value.Branch? { SettingsOfFree(publics, value, |value.children|, path, force, s); }
  }

  lemma {:induction false} SettingsOfFree(publics: set<string>, value: Node, k: nat, path: SourcePath, force: bool, s: State)
    requires Wf(value) && value.Branch? && k <= |value.children| && Unplaced(s.slots)
    ensures Unplaced(SettingsOf(publics, value, k, path, force, s).2.slots)
    decreases value, k
  {
    if k > 0 {
      SettingsOfFree(publics, value, k - 1, path, force, s);
      if value.shape.Array? || Declared(publics, value.shape.keys[k - 1]) {
        SettingsFree(publics, value.children[k - 1], path + [k - 1], Force(value.shape, k - 1, force),
                     SettingsOf(publics, value, k - 1, path, force, s).2);
      }
    }
  }

  const FRESH: State := State([], [])

  /** A draft with one option. */
  function Under(key: string, n: Node): Node {
    Branch(Object([key]), [n])
  }

  lemma UnderIsWf(key: string, n: Node, count: nat)
    requires Wf(n) && KnowsTokens(n, count)
    ensures Wf(Under(key, n)) && KnowsTokens(Under(key, n), count)
  {
    assert Under(key, n).children == [n];
  }

  /** A conversion of an option tree is complete exactly if every key of the tree
      is declared, and then binding gives the tree back. */
  lemma OptionsRoundTrip(input: Node, publics: set<string>, value: Node, source: SourcePath, force: bool, key: string)
    requires Wf(input) && Wf(value) && Plain(value) && At(input, source) == Some(value) && source != []
    ensures var (node, s) := Settings(publics, value, source, force, FRESH);
      var draft := Under(key, node);
      && Wf(draft) && KnowsTokens(draft, |s.slots|)
      && (Complete(Finalize(draft, s)) <==> AllDeclared(publics, value))
      && (AllDeclared(publics, value) ==>
            var slots := Finalize(draft, s).slots;
            Wf(Placed(draft)) && Bind(input, Placed(draft), slots, |slots|) == Some(Under(key, value)))
  {
    var (node, s) := Settings(publics, value, source, force, FRESH);
    var draft := Under(key, node);
    SettingsHide(publics, value, source, force, FRESH);
    UnderIsWf(key, node, |s.slots|);
    ReportsUndeclared(publics, value, source, force, FRESH);
    SettingsFree(publics, value, source, force, FRESH);
    SettingsSources(input, publics, value, source, force, FRESH);
    SettingsRecord(publics, value, source, force, FRESH, [Key(key)], s);
    RecordUnder(key, node, s);
    var recorded := Record(draft, [], s);
    UnplacedReports(recorded, |recorded.slots|);
    if AllDeclared(publics, value) {
      var slots := Finalize(draft, s).slots;
      BindingFillsTheSlots(input, draft, s);
      CompletePlacesAll(draft, s);
      SettingsFill(input, publics, value, source, force, FRESH, slots);
      assert Fill(input, slots, |slots|, draft).children == Under(key, value).children;
    }
  }

  lemma RecordUnder(key: string, n: Node, s: State)
    requires Wf(Under(key, n)) && KnowsTokens(Under(key, n), |s.slots|) && Wf(n) && KnowsTokens(n, |s.slots|)
    ensures Record(Under(key, n), [], s) == Record(n, [Key(key)], s)
  {
    var draft := Under(key, n);
    assert draft.children[0] == n && PartOf(draft.shape, 0) == Key(key) && [] + [Key(key)] == [Key(key)];
    assert RecordOf(draft, 0, [], s) == s;
    assert RecordOf(draft, 1, [], s) == Record(n, [Key(key)], s);
  }
}
