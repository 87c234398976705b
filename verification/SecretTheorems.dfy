/** Externalising an option tree and binding it back is the identity, and nothing
    private is left in between. */
module SecretTheorems {
  import opened Wrappers
  import opened SecretModel

  // ----- what the walk of the settings keeps -----

  predicate Extends(s: State, after: State) {
    s.slots <= after.slots && s.diagnostics <= after.diagnostics
  }

  lemma ExtendsOn(a: State, b: State, c: State)
    requires Extends(a, b) && Extends(b, c)
    ensures Extends(a, c)
  {
    assert forall i :: 0 <= i < |a.slots| ==> a.slots[i] == b.slots[i] == c.slots[i];
    assert forall i :: 0 <= i < |a.diagnostics| ==> a.diagnostics[i] == b.diagnostics[i] == c.diagnostics[i];
  }

  lemma {:induction false} SettingsExtend(publics: set<string>, value: Node, path: SourcePath, force: bool, s: State)
    requires Wf(value)
    ensures Extends(s, Settings(publics, value, path, force, s).1)
    decreases value, if value.Branch? then |value.children| + 1 else 0
  {
    if value.Branch? { SettingsOfExtend(publics, value, |value.children|, path, force, s); }
  }

  lemma {:induction false} SettingsOfExtend(publics: set<string>, value: Node, k: nat, path: SourcePath, force: bool, s: State)
    requires Wf(value) && value.Branch? && k <= |value.children|
    ensures Extends(s, SettingsOf(publics, value, k, path, force, s).2)
    decreases value, k
  {
    if k > 0 {
      SettingsOfExtend(publics, value, k - 1, path, force, s);
      var before := SettingsOf(publics, value, k - 1, path, force, s).2;
      if value.shape.Array? || Declared(publics, value.shape.keys[k - 1]) {
        var inner := Force(value.shape, k - 1, force);
        SettingsExtend(publics, value.children[k - 1], path + [k - 1], inner, before);
        ExtendsOn(s, before, Settings(publics, value.children[k - 1], path + [k - 1], inner, before).1);
      }
    }
  }

  // ----- a walk without diagnostics loses nothing -----

  /** The slots as they were written down, whatever their destinations. */
  predicate SameSources(slots: seq<Slot>, later: seq<Slot>) {
    |slots| <= |later| && forall i :: 0 <= i < |slots| ==> later[i].source == slots[i].source && later[i].kind == slots[i].kind
  }

  lemma {:induction false} AtExtends(n: Node, path: SourcePath, k: nat)
    requires At(n, path).Some? && At(n, path).value.Branch? && k < |At(n, path).value.children|
    ensures At(n, path + [k]) == Some(At(n, path).value.children[k])
    decreases |path|
  {
    if path == [] {
      assert (path + [k])[1..] == [];
    } else {
      assert (path + [k])[1..] == path[1..] + [k];
      AtExtends(n.children[path[0]], path[1..], k);
    }
  }

  lemma AddSlotFills(input: Node, value: Node, path: SourcePath, s: State, slots: seq<Slot>)
    requires At(input, path) == Some(value)
    requires SameSources(AddSlot(s, value, path, Setting).1.slots, slots)
    ensures Fill(input, slots, |slots|, AddSlot(s, value, path, Setting).0) == value
  {
    assert slots[|s.slots|].source == path;
  }

  /** Filling the slots of an option tree gives the tree back. */
  lemma {:induction false} SettingsFill(input: Node, publics: set<string>, value: Node, path: SourcePath, force: bool, s: State, slots: seq<Slot>)
    requires Wf(value) && Plain(value) && At(input, path) == Some(value)
    requires Settings(publics, value, path, force, s).1.diagnostics == s.diagnostics
    requires SameSources(Settings(publics, value, path, force, s).1.slots, slots)
    ensures Fill(input, slots, |slots|, Settings(publics, value, path, force, s).0) == value
    decreases value, if value.Branch? then |value.children| + 1 else 0
  {
    if value.Branch? {
      var n := |value.children|;
      SettingsOfFill(input, publics, value, n, path, force, s, slots);
      var (keys, nodes, _) := SettingsOf(publics, value, n, path, force, s);
      var filled := Fill(input, slots, |slots|, Settings(publics, value, path, force, s).0);
      assert filled.children == value.children;
      assert value.shape.Object? ==> value.shape.keys[..n] == value.shape.keys;
    } else if Settings(publics, value, path, force, s).0 != value {
      AddSlotFills(input, value, path, s, slots);
    }
  }

  lemma {:induction false} SettingsOfFill(input: Node, publics: set<string>, value: Node, k: nat, path: SourcePath, force: bool, s: State, slots: seq<Slot>)
    requires Wf(value) && Plain(value) && value.Branch? && k <= |value.children| && At(input, path) == Some(value)
    requires SettingsOf(publics, value, k, path, force, s).2.diagnostics == s.diagnostics
    requires SameSources(SettingsOf(publics, value, k, path, force, s).2.slots, slots)
    ensures var (keys, nodes, _) := SettingsOf(publics, value, k, path, force, s);
      FilledTo(input, slots, value, k, keys, nodes)
    decreases value, k
  {
    if k > 0 {
      var (keys, nodes, before) := SettingsOf(publics, value, k - 1, path, force, s);
      var inner, child := Force(value.shape, k - 1, force), value.children[k - 1];
      SettingsOfExtend(publics, value, k - 1, path, force, s);
      ChildrenOk(value, k - 1);
      SettingsExtend(publics, child, path + [k - 1], inner, before);
      var (node, after) := Settings(publics, child, path + [k - 1], inner, before);
      assert SameSources(before.slots, slots);
      hide Fill, Wf, Plain, At, Settings, Declared, Force, FilledTo, SameSources, Extends;
      SettingsOfStep(publics, value, k, path, force, s);
      hide SettingsOf;
      SettingsOfFill(input, publics, value, k - 1, path, force, s, slots);
      AtExtends(input, path, k - 1);
      SettingsFill(input, publics, child, path + [k - 1], inner, before, slots);
      FilledOneMore(input, slots, value, k, keys, nodes, node);
    }
  }

  /** The first k children come back when their slots are filled. */
  predicate FilledTo(input: Node, slots: seq<Slot>, value: Node, k: nat, keys: seq<string>, nodes: seq<Node>)
    requires Wf(value) && value.Branch? && k <= |value.children|
  {
    && |nodes| == k && (value.shape.Object? ==> keys == value.shape.keys[..k])
    && forall j :: 0 <= j < k ==> Fill(input, slots, |slots|, nodes[j]) == value.children[j]
  }

  lemma FilledOneMore(input: Node, slots: seq<Slot>, value: Node, k: nat, keys: seq<string>, nodes: seq<Node>, node: Node)
    requires Wf(value) && value.Branch? && 0 < k <= |value.children|
    requires FilledTo(input, slots, value, k - 1, keys, nodes)
    requires Fill(input, slots, |slots|, node) == value.children[k - 1]
    ensures FilledTo(input, slots, value, k, if value.shape.Object? then keys + [value.shape.keys[k - 1]] else keys, nodes + [node])
  {
    hide Fill;
  }

  /** One more child without a report. */
  lemma SettingsOfStep(publics: set<string>, value: Node, k: nat, path: SourcePath, force: bool, s: State)
    requires Wf(value) && value.Branch? && 0 < k <= |value.children|
    requires SettingsOf(publics, value, k, path, force, s).2.diagnostics == s.diagnostics
    ensures var (keys, nodes, before) := SettingsOf(publics, value, k - 1, path, force, s);
      var (node, after) := Settings(publics, value.children[k - 1], path + [k - 1], Force(value.shape, k - 1, force), before);
      && before.diagnostics == after.diagnostics == s.diagnostics
      && SettingsOf(publics, value, k, path, force, s)
      == (if value.shape.Object? then keys + [value.shape.keys[k - 1]] else keys, nodes + [node], after)
  {
    SettingsOfExtend(publics, value, k - 1, path, force, s);
    var before := SettingsOf(publics, value, k - 1, path, force, s).2;
    SettingsExtend(publics, value.children[k - 1], path + [k - 1], Force(value.shape, k - 1, force), before);
  }

  lemma ChildrenOk(value: Node, k: nat)
    requires Wf(value) && Plain(value) && value.Branch? && k < |value.children|
    ensures Wf(value.children[k]) && Plain(value.children[k])
  {
  }

  // ----- when a walk reports nothing -----

  predicate KeyDeclared(publics: set<string>, shape: Shape, k: nat)
    requires shape.Object? ==> k < |shape.keys|
  {
    shape.Object? ==> Declared(publics, shape.keys[k])
  }

  predicate AllDeclared(publics: set<string>, value: Node)
    requires Wf(value)
  {
    value.Branch? ==>
      forall k :: 0 <= k < |value.children| ==> KeyDeclared(publics, value.shape, k) && AllDeclared(publics, value.children[k])
  }

  predicate ChildDeclared(publics: set<string>, value: Node, k: nat)
    requires Wf(value) && value.Branch? && k < |value.children|
  {
    KeyDeclared(publics, value.shape, k) && AllDeclared(publics, value.children[k])
  }

  /** A walk reports something exactly if some key is not declared. */
  lemma {:induction false} ReportsUndeclared(publics: set<string>, value: Node, path: SourcePath, force: bool, s: State)
    requires Wf(value)
    ensures Settings(publics, value, path, force, s).1.diagnostics == s.diagnostics <==> AllDeclared(publics, value)
    decreases value, if value.Branch? then |value.children| + 1 else 0
  {
    if value.Branch? {
      var n := |value.children|;
      ReportsUndeclaredOf(publics, value, n, path, force, s);
      assert Settings(publics, value, path, force, s).1 == SettingsOf(publics, value, n, path, force, s).2;
      forall k | 0 <= k < n ensures ChildDeclared(publics, value, k) <==> KeyDeclared(publics, value.shape, k) && AllDeclared(publics, value.children[k]) {
      }
    }
  }

  lemma {:induction false} ReportsUndeclaredOf(publics: set<string>, value: Node, k: nat, path: SourcePath, force: bool, s: State)
    requires Wf(value) && value.Branch? && k <= |value.children|
    ensures SettingsOf(publics, value, k, path, force, s).2.diagnostics == s.diagnostics
       <==> forall j :: 0 <= j < k ==> ChildDeclared(publics, value, j)
    decreases value, k
  {
    if k > 0 {
      hide AllDeclared, Declared;
      ReportsUndeclaredOf(publics, value, k - 1, path, force, s);
      SettingsOfExtend(publics, value, k - 1, path, force, s);
      var before := SettingsOf(publics, value, k - 1, path, force, s).2;
      if value.shape.Array? || Declared(publics, value.shape.keys[k - 1]) {
        var inner, child := Force(value.shape, k - 1, force), value.children[k - 1];
        SettingsExtend(publics, child, path + [k - 1], inner, before);
        ReportsUndeclared(publics, child, path + [k - 1], inner, before);
        var after := Settings(publics, child, path + [k - 1], inner, before).1;
        assert SettingsOf(publics, value, k, path, force, s).2 == after;
        assert after.diagnostics == s.diagnostics <==> after.diagnostics == before.diagnostics && before.diagnostics == s.diagnostics;
        assert ChildDeclared(publics, value, k - 1) <==> AllDeclared(publics, child);
      } else {
        assert !ChildDeclared(publics, value, k - 1);
        assert |SettingsOf(publics, value, k, path, force, s).2.diagnostics| == |before.diagnostics| + 1;
      }
    }
  }

  // ----- nothing private is left -----

  /** Strings are public, keys are declared, and below a private key there is no
      leaf at all. */
  predicate NothingPrivate(publics: set<string>, n: Node, force: bool)
    requires Wf(n)
  {
    match n
    case Token(_) => true
    case Text(text) => !force && text in publics
    case Branch(shape, children) =>
      forall k :: 0 <= k < |children| ==>
        KeyDeclared(publics, shape, k) && NothingPrivate(publics, children[k], Force(shape, k, force))
    case _ => !force
  }

  lemma {:induction false} SettingsHide(publics: set<string>, value: Node, path: SourcePath, force: bool, s: State)
    requires Wf(value) && Plain(value)
    ensures var (n, after) := Settings(publics, value, path, force, s);
      Wf(n) && KnowsTokens(n, |after.slots|) && NothingPrivate(publics, n, force)
    decreases value, if value.Branch? then |value.children| + 1 else 0
  {
    if value.Branch? {
      var n := |value.children|;
      SettingsOfHide(publics, value, n, path, force, s);
      var (keys, nodes, after) := SettingsOf(publics, value, n, path, force, s);
      BranchHidden(publics, Kept(value.shape, keys), nodes, force, |after.slots|);
      assert Settings(publics, value, path, force, s) == (Branch(Kept(value.shape, keys), nodes), after);
    }
  }

  /** The keys kept so far are distinct and come from the first k. */
  predicate KeysFrom(keys: seq<string>, all: seq<string>, k: nat) {
    k <= |all| && Distinct(keys) && forall i :: 0 <= i < |keys| ==> keys[i] in all[..k]
  }

  predicate ChildHidden(publics: set<string>, shape: Shape, node: Node, j: nat, force: bool, count: nat)
    requires shape.Object? ==> j < |shape.keys|
  {
    && Wf(node) && KnowsTokens(node, count)
    && KeyDeclared(publics, shape, j) && NothingPrivate(publics, node, Force(shape, j, force))
  }

  lemma BranchHidden(publics: set<string>, shape: Shape, nodes: seq<Node>, force: bool, count: nat)
    requires ShapeOk(shape, |nodes|)
    requires forall j :: 0 <= j < |nodes| ==> ChildHidden(publics, shape, nodes[j], j, force, count)
    ensures var n := Branch(shape, nodes); Wf(n) && KnowsTokens(n, count) && NothingPrivate(publics, n, force)
  {
    var n := Branch(shape, nodes);
    forall j | 0 <= j < |nodes|
      ensures Wf(nodes[j]) && KnowsTokens(nodes[j], count)
      ensures KeyDeclared(publics, shape, j) && NothingPrivate(publics, nodes[j], Force(shape, j, force))
    {
      assert ChildHidden(publics, shape, nodes[j], j, force, count);
    }
    hide ChildHidden, Force, KeyDeclared;
    assert Wf(n);
  }

  function Kept(shape: Shape, keys: seq<string>): Shape {
    if shape.Array? then Array else Object(keys)
  }

  lemma {:induction false} SettingsOfHide(publics: set<string>, value: Node, k: nat, path: SourcePath, force: bool, s: State)
    requires Wf(value) && Plain(value) && value.Branch? && k <= |value.children|
    ensures var (keys, nodes, after) := SettingsOf(publics, value, k, path, force, s);
      && (value.shape.Object? ==> |keys| == |nodes| && KeysFrom(keys, value.shape.keys, k))
      && forall j :: 0 <= j < |nodes| ==> ChildHidden(publics, Kept(value.shape, keys), nodes[j], j, force, |after.slots|)
    decreases value, k
  {
    if k > 0 {
      SettingsOfHide(publics, value, k - 1, path, force, s);
      var (keys, nodes, before) := SettingsOf(publics, value, k - 1, path, force, s);
      var shape, child := value.shape, value.children[k - 1];
      var inner := Force(shape, k - 1, force);
      if shape.Array? || Declared(publics, shape.keys[k - 1]) {
        SettingsHide(publics, child, path + [k - 1], inner, before);
        SettingsExtend(publics, child, path + [k - 1], inner, before);
        var (node, after) := Settings(publics, child, path + [k - 1], inner, before);
        assert SettingsOf(publics, value, k, path, force, s)
            == (if shape.Object? then keys + [shape.keys[k - 1]] else keys, nodes + [node], after);
        forall j | 0 <= j < |nodes| ensures KnowsTokens(nodes[j], |after.slots|) {
          KnowsMore(nodes[j], |before.slots|, |after.slots|);
        }
      }
      hide SettingsOf, Settings, NothingPrivate, KnowsTokens, Wf, Declared, PrivateKey, Plain;
      if shape.Object? { MoreKeys(keys, shape.keys, k); }
    }
  }

  lemma MoreKeys(keys: seq<string>, all: seq<string>, k: nat)
    requires 0 < k <= |all| && Distinct(all) && KeysFrom(keys, all, k - 1)
    ensures KeysFrom(keys, all, k) && KeysFrom(keys + [all[k - 1]], all, k)
  {
    assert forall x :: x in all[..k - 1] ==> x in all[..k];
    assert all[k - 1] == all[..k][k - 1];
    assert all[k - 1] !in all[..k - 1];
  }

  lemma {:induction false} KnowsMore(n: Node, count: nat, more: nat)
    requires KnowsTokens(n, count) && count <= more
    ensures KnowsTokens(n, more)
  {
    if n.Branch? {
      forall k | 0 <= k < |n.children| ensures KnowsTokens(n.children[k], more) { KnowsMore(n.children[k], count, more); }
    }
  }
}
