/** Private leaves of a configuration become numbered slots with two paths: where
    the value stands in the source and where its placeholder stands in the draft. */
module SecretModel {
  import opened Wrappers

  // ----- trees -----

  datatype Shape = Array | Object(keys: seq<string>)

  /** JSON; in a draft a token stands for a slot, the first slot being 0. */
  datatype Node =
    | Null
    | Bool(truth: bool)
    | Number(value: real)
    | Text(text: string)
    | Token(slot: nat)
    | Branch(shape: Shape, children: seq<Node>)

  predicate Distinct(keys: seq<string>) {
    forall i, j :: 0 <= i < j < |keys| ==> keys[i] != keys[j]
  }

  predicate ShapeOk(shape: Shape, count: nat) {
    shape.Object? ==> |shape.keys| == count && Distinct(shape.keys)
  }

  predicate Wf(n: Node) {
    n.Branch? ==> ShapeOk(n.shape, |n.children|) && forall k :: 0 <= k < |n.children| ==> Wf(n.children[k])
  }

  /** Without tokens: a value of the source. */
  predicate Plain(n: Node) {
    !n.Token? && (n.Branch? ==> forall k :: 0 <= k < |n.children| ==> Plain(n.children[k]))
  }

  /** Source paths count the properties of objects as they count elements. */
  type SourcePath = seq<nat>

  function At(n: Node, path: SourcePath): Option<Node> {
    if path == [] then Some(n)
    else if n.Branch? && path[0] < |n.children| then At(n.children[path[0]], path[1..])
    else None
  }

  datatype Part = Index(index: nat) | Key(key: string)

  type DestinationPath = seq<Part>

  function PartOf(shape: Shape, k: nat): Part
    requires shape.Object? ==> k < |shape.keys|
  {
    if shape.Array? then Index(k) else Key(shape.keys[k])
  }

  /** Which child a part of a path names. */
  function Ordinal(shape: Shape, count: nat, part: Part): (r: Option<nat>)
    requires ShapeOk(shape, count)
    ensures r.Some? ==> r.value < count && PartOf(shape, r.value) == part
    ensures r.None? ==> forall k :: 0 <= k < count ==> PartOf(shape, k) != part
  {
    match part
    case Index(i) => if shape.Array? && i < count then Some(i) else None
    case Key(key) => if shape.Object? then KeyOrdinal(shape.keys, key) else None
  }

  function KeyOrdinal(keys: seq<string>, key: string): (r: Option<nat>)
    ensures r.Some? ==> r.value < |keys| && keys[r.value] == key
    ensures r.None? ==> key !in keys
  {
    if keys == [] then None
    else if keys[|keys| - 1] == key then Some(|keys| - 1)
    else KeyOrdinal(keys[..|keys| - 1], key)
  }

  function Get(n: Node, path: DestinationPath): Option<Node>
    requires Wf(n)
  {
    if path == [] then Some(n)
    else if !n.Branch? then None
    else
      var k := Ordinal(n.shape, |n.children|, path[0]);
      if k.None? then None else Get(n.children[k.value], path[1..])
  }

  function Put(n: Node, path: DestinationPath, value: Node): Node
    requires Wf(n) && Get(n, path).Some?
  {
    if path == [] then value
    else
      var k := Ordinal(n.shape, |n.children|, path[0]).value;
      Branch(n.shape, n.children[k := Put(n.children[k], path[1..], value)])
  }

  // ----- slots -----

  datatype Kind = TextKind | Argument | Environment | Header | Url | OAuth | Setting

  /** Slot number i has the identifier slot-(i+1). */
  datatype Slot = Slot(source: SourcePath, kind: Kind, destination: DestinationPath)

  function Digits(n: nat): string {
    (if n < 10 then "" else Digits(n / 10)) + ["0123456789"[n % 10]]
  }

  function Placeholder(slot: nat): string {
    "__OPENCODE_PRIVATE_slot-" + Digits(slot + 1) + "__"
  }

  datatype Code = InvalidString | DeclarationRequired | DestinationInvalid

  datatype Diagnostic = Diagnostic(code: Code, path: SourcePath)

  /** What a conversion has written down so far. All these diagnostics block. */
  datatype State = State(slots: seq<Slot>, diagnostics: seq<Diagnostic>)

  function Report(s: State, code: Code, path: SourcePath): State {
    s.(diagnostics := s.diagnostics + [Diagnostic(code, path)])
  }

  function AddSlot(s: State, value: Node, path: SourcePath, kind: Kind): (Node, State) {
    if !value.Text? && kind != Setting then (Text("INVALID_DRAFT"), Report(s, InvalidString, path))
    else (Token(|s.slots|), s.(slots := s.slots + [Slot(path, kind, [])]))
  }

  // ----- settings -----

  function Lower(c: char): char {
    if 'A' <= c <= 'Z' then c - 'A' + 'a' else c
  }

  function LowerAll(s: string): string {
    seq(|s|, i requires 0 <= i < |s| => Lower(s[i]))
  }

  predicate WordAt(s: string, i: nat, word: string) {
    i + |word| <= |s| && s[i..i + |word|] == word
  }

  predicate Contains(s: string, word: string) {
    exists i :: 0 <= i <= |s| && WordAt(s, i, word)
  }

  /** What a dot in a pattern stands for: one code unit that ends no line. */
  predicate Dot(c: char) {
    c !in "\n\r\U{2028}\U{2029}" && c < '\U{10000}'
  }

  /** "api", at most one code unit, "key". */
  predicate ContainsApiKey(s: string) {
    Contains(s, "apikey")
    || exists i :: 0 <= i < |s| - 3 && WordAt(s, i, "api") && Dot(s[i + 3]) && WordAt(s, i + 4, "key")
  }

  /** A key whose value is private whatever it is. */
  predicate PrivateKey(key: string) {
    var s := LowerAll(key);
    Contains(s, "secret") || Contains(s, "token") || Contains(s, "password") || Contains(s, "authorization")
    || ContainsApiKey(s) || Contains(s, "baseurl") || Contains(s, "endpoint")
  }

  predicate Declared(publicStrings: set<string>, s: string) {
    s in publicStrings && '\0' !in s
  }

  function Force(shape: Shape, k: nat, force: bool): bool
    requires shape.Object? ==> k < |shape.keys|
  {
    force || (shape.Object? && PrivateKey(shape.keys[k]))
  }

  /** Copy an option tree: private leaves become slots and undeclared keys are reported. */
  function Settings(publics: set<string>, value: Node, path: SourcePath, force: bool, s: State): (Node, State)
    requires Wf(value)
    decreases value, if value.Branch? then |value.children| + 1 else 0
  {
    match value
    case Text(text) => if !force && text in publics then (value, s) else AddSlot(s, value, path, Setting)
    case Branch(shape, children) =>
      var (keys, nodes, after) := SettingsOf(publics, value, |children|, path, force, s);
      (Branch(if shape.Array? then Array else Object(keys), nodes), after)
    case _ => if force then AddSlot(s, value, path, Setting) else (value, s)
  }

  /** The first k children, with the keys that are kept. */
  function SettingsOf(publics: set<string>, value: Node, k: nat, path: SourcePath, force: bool, s: State):
    (seq<string>, seq<Node>, State)
    requires Wf(value) && value.Branch? && k <= |value.children|
    decreases value, k
  {
    if k == 0 then ([], [], s)
    else
      var (keys, nodes, before) := SettingsOf(publics, value, k - 1, path, force, s);
      var shape := value.shape;
      if shape.Object? && !Declared(publics, shape.keys[k - 1]) then
        (keys, nodes, Report(before, DeclarationRequired, path + [k - 1]))
      else
        var (node, after) := Settings(publics, value.children[k - 1], path + [k - 1], Force(shape, k - 1, force), before);
        (if shape.Object? then keys + [shape.keys[k - 1]] else keys, nodes + [node], after)
  }

  // ----- finalizing -----

  /** The draft with values in its first `bound` slots and placeholders in the rest. */
  function Fill(input: Node, slots: seq<Slot>, bound: nat, n: Node): Node
  {
    match n
    case Token(i) =>
      if i < bound && i < |slots| && At(input, slots[i].source).Some? then At(input, slots[i].source).value
      else Text(Placeholder(i))
    case Branch(shape, children) =>
      Branch(shape, seq(|children|, k requires 0 <= k < |children| => Fill(input, slots, bound, children[k])))
    case _ => n
  }

  /** The draft with placeholders for its tokens. */
  function Placed(n: Node): Node {
    Fill(Null, [], 0, n)
  }

  predicate KnowsTokens(n: Node, count: nat) {
    match n
    case Token(i) => i < count
    case Branch(_, children) => forall k :: 0 <= k < |children| ==> KnowsTokens(children[k], count)
    case _ => true
  }

  /** Record where each token stands. */
  function Record(n: Node, path: DestinationPath, s: State): (r: State)
    requires Wf(n) && KnowsTokens(n, |s.slots|)
    ensures |r.slots| == |s.slots|
    decreases n, if n.Branch? then |n.children| + 1 else 0
  {
    match n
    case Token(i) =>
      if s.slots[i].destination != [] then Report(s, DestinationInvalid, s.slots[i].source)
      else s.(slots := s.slots[i := s.slots[i].(destination := path)])
    case Branch(_, children) => RecordOf(n, |children|, path, s)
    case _ => s
  }

  function RecordOf(n: Node, k: nat, path: DestinationPath, s: State): (r: State)
    requires Wf(n) && KnowsTokens(n, |s.slots|) && n.Branch? && k <= |n.children|
    ensures |r.slots| == |s.slots|
    decreases n, k
  {
    if k == 0 then s
    else Record(n.children[k - 1], path + [PartOf(n.shape, k - 1)], RecordOf(n, k - 1, path, s))
  }

  /** Report the slots that stand nowhere. */
  function ReportUnplaced(s: State, k: nat): State
    requires k <= |s.slots|
  {
    if k == 0 then s
    else
      var before := ReportUnplaced(s, k - 1);
      if s.slots[k - 1].destination == [] then Report(before, DestinationInvalid, s.slots[k - 1].source) else before
  }

  function Finalize(draft: Node, s: State): State
    requires Wf(draft) && KnowsTokens(draft, |s.slots|)
  {
    var recorded := Record(draft, [], s);
    ReportUnplaced(recorded, |recorded.slots|)
  }

  predicate Complete(s: State) {
    s.diagnostics == []
  }

  // ----- binding -----

  /** The value of a slot, if its path and its kind are right. */
  function SourceValue(input: Node, slot: Slot): Option<Node> {
    var value := At(input, slot.source);
    if slot.source == [] || value.None? || (slot.kind != Setting && !value.value.Text?) then None else value
  }

  /** Write slot k over its placeholder. */
  function BindSlot(input: Node, slots: seq<Slot>, k: nat, bound: Node): Option<Node>
    requires k < |slots| && Wf(bound)
  {
    var slot := slots[k];
    if SourceValue(input, slot).None? || slot.destination == [] then None
    else if exists j :: 0 <= j < k && slots[j].destination == slot.destination then None
    else if Get(bound, slot.destination) != Some(Text(Placeholder(k))) then None
    else Some(Put(bound, slot.destination, SourceValue(input, slot).value))
  }

  lemma {:induction false} PutIsWf(n: Node, path: DestinationPath, value: Node)
    requires Wf(n) && Wf(value) && Get(n, path).Some?
    ensures Wf(Put(n, path, value))
    decreases |path|
  {
    if path != [] {
      var k := Ordinal(n.shape, |n.children|, path[0]).value;
      PutIsWf(n.children[k], path[1..], value);
    }
  }

  lemma {:induction false} AtIsWf(n: Node, path: SourcePath)
    requires Wf(n) && At(n, path).Some?
    ensures Wf(At(n, path).value)
    decreases |path|
  {
    if path != [] { AtIsWf(n.children[path[0]], path[1..]); }
  }

  /** The first k slots bound, in order; none if one is refused. */
  function Bind(input: Node, draft: Node, slots: seq<Slot>, k: nat): (r: Option<Node>)
    requires Wf(input) && Wf(draft) && k <= |slots|
    ensures r.Some? ==> Wf(r.value)
  {
    if k == 0 then Some(draft)
    else
      var before := Bind(input, draft, slots, k - 1);
      if before.None? then None
      else
        var after := BindSlot(input, slots, k - 1, before.value);
        if after.Some? then
          AtIsWf(input, slots[k - 1].source);
          PutIsWf(before.value, slots[k - 1].destination, SourceValue(input, slots[k - 1]).value);
          after
        else None
  }
}
