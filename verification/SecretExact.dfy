/** Exactly the private leaves become slots, and binding accepts exactly what it should. */
module SecretExact {
  import opened Wrappers
  import opened SecretModel
  import opened SecretTheorems

  // ----- what is externalised -----

  /** The copy has the shape of the tree; a leaf is a token if it is private, and is the
      leaf itself otherwise. */
  predicate Mirrors(publics: set<string>, value: Node, n: Node, force: bool)
    requires Wf(value)
  {
    match value
    case Text(text) => if !force && text in publics then n == value else n.Token?
    case Branch(shape, children) =>
      && n.Branch? && n.shape == shape && |n.children| == |children|
      && forall k :: 0 <= k < |children| ==> Mirrors(publics, children[k], n.children[k], Force(shape, k, force))
    case _ => if force then n.Token? else n == value
  }

  predicate ChildMirrors(publics: set<string>, value: Node, j: nat, node: Node, force: bool)
    requires Wf(value) && value.Branch? && j < |value.children|
  {
    Mirrors(publics, value.children[j], node, Force(value.shape, j, force))
  }

  /** In a tree with declared keys exactly the private leaves are externalised: strings
      that are not public, and every leaf below a private key. */
  lemma {:induction false} ExactlyPrivateLeaves(publics: set<string>, value: Node, path: SourcePath, force: bool, s: State)
    requires Wf(value) && Plain(value) && AllDeclared(publics, value)
    ensures Mirrors(publics, value, Settings(publics, value, path, force, s).0, force)
    decreases value, if value.Branch? then |value.children| + 1 else 0
  {
    if value.Branch? {
      var n := |value.children|;
      ChildrenMirror(publics, value, n, path, force, s);
      var (keys, nodes, after) := SettingsOf(publics, value, n, path, force, s);
      var node := Settings(publics, value, path, force, s).0;
      assert value.shape.Object? ==> value.shape.keys[..n] == value.shape.keys;
      assert node == Branch(value.shape, nodes);
      forall k | 0 <= k < n ensures Mirrors(publics, value.children[k], nodes[k], Force(value.shape, k, force)) {
        assert ChildMirrors(publics, value, k, nodes[k], force);
      }
    }
  }

  lemma {:induction false} ChildrenMirror(publics: set<string>, value: Node, k: nat, path: SourcePath, force: bool, s: State)
    requires Wf(value) && Plain(value) && AllDeclared(publics, value) && value.Branch? && k <= |value.children|
    ensures var (keys, nodes, _) := SettingsOf(publics, value, k, path, force, s);
      && |nodes| == k && (value.shape.Object? ==> keys == value.shape.keys[..k])
      && forall j :: 0 <= j < k ==> ChildMirrors(publics, value, j, nodes[j], force)
    decreases value, k
  {
    if k > 0 {
      ChildrenMirror(publics, value, k - 1, path, force, s);
      var (keys, nodes, before) := SettingsOf(publics, value, k - 1, path, force, s);
      assert KeyDeclared(publics, value.shape, k - 1) && AllDeclared(publics, value.children[k - 1]);
      ExactlyPrivateLeaves(publics, value.children[k - 1], path + [k - 1], Force(value.shape, k - 1, force), before);
      assert value.shape.Object? ==> value.shape.keys[..k] == value.shape.keys[..k - 1] + [value.shape.keys[k - 1]];
      hide Mirrors, Settings, AllDeclared, Wf, Plain;
    }
  }

  // ----- private keys -----

  lemma LowerJoins(a: string, b: string)
    ensures LowerAll(a + b) == LowerAll(a) + LowerAll(b)
  {
  }

  lemma ContainsPart(a: string, word: string, b: string)
    ensures Contains(a + word + b, word)
  {
    assert (a + word + b)[|a|..|a| + |word|] == word;
    assert WordAt(a + word + b, |a|, word);
  }

  const PRIVATE_WORDS: set<string> := {"secret", "token", "password", "authorization", "apikey", "baseurl", "endpoint"}

  /** A key with one of these words in it is private, in upper case or lower and
      wherever the word stands. */
  lemma PrivateWords(a: string, word: string, b: string)
    requires LowerAll(word) in PRIVATE_WORDS
    ensures PrivateKey(a + word + b)
  {
    LowerJoins(a + word, b);
    LowerJoins(a, word);
    ContainsPart(LowerAll(a), LowerAll(word), LowerAll(b));
    hide LowerAll, Contains;
  }

  /** So is one in which a single unit parts "api" from "key". */
  lemma PrivateApiKey(a: string, api: string, c: char, key: string, b: string)
    requires LowerAll(api) == "api" && LowerAll(key) == "key" && Dot(c) && !('A' <= c <= 'Z')
    ensures PrivateKey(a + api + [c] + key + b)
  {
    LowerJoins(a + api + [c] + key, b);
    LowerJoins(a + api + [c], key);
    LowerJoins(a + api, [c]);
    LowerJoins(a, api);
    assert LowerAll([c]) == [c];
    var s := LowerAll(a) + "api" + [c] + "key" + LowerAll(b);
    assert LowerAll(a + api + [c] + key + b) == s;
    hide LowerAll, Contains;
    var i := |LowerAll(a)|;
    assert s[i..i + 3] == "api" && s[i + 3] == c && s[i + 4..i + 7] == "key";
    assert WordAt(s, i, "api") && WordAt(s, i + 4, "key");
  }

  // ----- what binding accepts -----

  /** Slot i may be bound into what the slots before it have made of the draft. */
  ghost predicate MayBind(input: Node, draft: Node, slots: seq<Slot>, i: nat)
    requires Wf(input) && Wf(draft) && i < |slots|
  {
    && At(input, slots[i].source).Some? && slots[i].source != [] && slots[i].destination != []
    && (slots[i].kind != Setting ==> At(input, slots[i].source).value.Text?)
    && (forall j :: 0 <= j < i ==> slots[j].destination != slots[i].destination)
    && Bind(input, draft, slots, i).Some?
    && Get(Bind(input, draft, slots, i).value, slots[i].destination) == Some(Text(Placeholder(i)))
  }

  /** Binding succeeds exactly if every slot has a source value of its kind, a place of
      its own, and its own placeholder still standing there. */
  lemma {:induction false} BindsIff(input: Node, draft: Node, slots: seq<Slot>, k: nat)
    requires Wf(input) && Wf(draft) && k <= |slots|
    ensures Bind(input, draft, slots, k).Some? <==> forall i :: 0 <= i < k ==> MayBind(input, draft, slots, i)
    decreases k
  {
    hide *;
    if k == 0 {
      NothingToBind(input, draft, slots);
    } else {
      BindsIff(input, draft, slots, k - 1);
      BindsOneIff(input, draft, slots, k - 1);
    }
  }

  lemma NothingToBind(input: Node, draft: Node, slots: seq<Slot>)
    requires Wf(input) && Wf(draft)
    ensures Bind(input, draft, slots, 0).Some?
  {
  }

  lemma BindsOneIff(input: Node, draft: Node, slots: seq<Slot>, i: nat)
    requires Wf(input) && Wf(draft) && i < |slots|
    ensures Bind(input, draft, slots, i + 1).Some? <==> Bind(input, draft, slots, i).Some? && MayBind(input, draft, slots, i)
  {
    hide Wf, Get, At, Put, Placeholder;
  }
}
