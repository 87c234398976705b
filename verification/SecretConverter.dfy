/** The conversion as it runs: the walk pushes slots and diagnostics, finalizing
    writes the placeholders and the destinations, binding writes the values. */
module SecretConverter {
  import opened Wrappers
  import opened SecretModel
  import opened SecretTheorems
  import opened SecretBinding

  class Converter {
    const publicStrings: set<string>
    var secretSlots: seq<Slot>
    var diagnostics: seq<Diagnostic>

    ghost function Noted(): State
      reads this
    {
      State(secretSlots, diagnostics)
    }

    constructor (publicStrings: set<string>)
      ensures Noted() == FRESH && this.publicStrings == publicStrings
    {
      this.publicStrings := publicStrings;
      secretSlots, diagnostics := [], [];
    }

    method Diagnose(code: Code, path: SourcePath)
      modifies this`diagnostics
      ensures Noted() == Report(old(Noted()), code, path)
    {
      diagnostics := diagnostics + [Diagnostic(code, path)];
    }

    method MakeSlot(value: Node, path: SourcePath, kind: Kind) returns (r: Node)
      modifies this
      ensures (r, Noted()) == AddSlot(old(Noted()), value, path, kind)
    {
      if !value.Text? && kind != Setting {
        Diagnose(InvalidString, path);
        return Text("INVALID_DRAFT");
      }
      r := Token(|secretSlots|);
      secretSlots := secretSlots + [Slot(path, kind, [])];
    }

    method WalkSettings(value: Node, path: SourcePath, force: bool) returns (r: Node)
      requires Wf(value)
      modifies this
      ensures (r, Noted()) == Settings(publicStrings, value, path, force, old(Noted()))
      decreases value
    {
      if value.Text? {
        if !force && value.text in publicStrings { return value; }
        r := MakeSlot(value, path, Setting);
      } else if value.Branch? {
        var keys: seq<string> := [];
        var nodes: seq<Node> := [];
        for k := 0 to |value.children|
          invariant (keys, nodes, Noted()) == SettingsOf(publicStrings, value, k, path, force, old(Noted()))
        {
          if value.shape.Object? && !Declared(publicStrings, value.shape.keys[k]) {
            Diagnose(DeclarationRequired, path + [k]);
          } else {
            var node := WalkSettings(value.children[k], path + [k], Force(value.shape, k, force));
            if value.shape.Object? { keys := keys + [value.shape.keys[k]]; }
            nodes := nodes + [node];
          }
        }
        r := Branch(if value.shape.Array? then Array else Object(keys), nodes);
      } else if force {
        r := MakeSlot(value, path, Setting);
      } else {
        r := value;
      }
    }

    /** Overwrite the tokens below a path, noting where each stands. */
    method WritePlaceholders(n: Node, path: DestinationPath) returns (r: Node)
      requires Wf(n) && KnowsTokens(n, |secretSlots|)
      modifies this
      ensures r == Placed(n) && Noted() == Record(n, path, old(Noted()))
      decreases n
    {
      match n {
        case Token(i) =>
          if secretSlots[i].destination != [] {
            Diagnose(DestinationInvalid, secretSlots[i].source);
          } else {
            secretSlots := secretSlots[i := secretSlots[i].(destination := path)];
          }
          r := Text(Placeholder(i));
        case Branch(shape, children) =>
          var written := children;
          for k := 0 to |children|
            invariant |secretSlots| == old(|secretSlots|)
            invariant |written| == |children|
            invariant forall j :: 0 <= j < k ==> written[j] == Placed(children[j])
            invariant forall j :: k <= j < |children| ==> written[j] == children[j]
            invariant Noted() == RecordOf(n, k, path, old(Noted()))
          {
            var node := WritePlaceholders(children[k], path + [PartOf(shape, k)]);
            written := written[k := node];
          }
          r := Branch(shape, written);
          assert written == Placed(n).children;
        case _ =>
          r := n;
      }
    }

    /** The draft and the slots as they leave the conversion. */
    method FinalizeDraft(draft: Node) returns (r: Node)
      requires Wf(draft) && KnowsTokens(draft, |secretSlots|)
      modifies this
      ensures r == Placed(draft) && Noted() == Finalize(draft, old(Noted()))
    {
      r := WritePlaceholders(draft, []);
      ghost var recorded := Noted();
      for k := 0 to |secretSlots|
        invariant secretSlots == recorded.slots
        invariant Noted() == ReportUnplaced(recorded, k)
      {
        UnplacedReports(recorded, k);
        if secretSlots[k].destination == [] { Diagnose(DestinationInvalid, secretSlots[k].source); }
      }
    }
  }

  /** Follow a source path. */
  method ReadSource(input: Node, path: SourcePath) returns (r: Option<Node>)
    ensures r == At(input, path)
  {
    var value := input;
    for i := 0 to |path|
      invariant At(input, path) == At(value, path[i..])
    {
      assert path[i..][1..] == path[i + 1..];
      if !value.Branch? || path[i] >= |value.children| { return None; }
      value := value.children[path[i]];
    }
    r := Some(value);
  }

  /** Bind the slots in order; the first that is refused refuses everything. */
  method BindConvertedConfig(input: Node, draft: Node, slots: seq<Slot>) returns (r: Option<Node>)
    requires Wf(input) && Wf(draft)
    ensures r == Bind(input, draft, slots, |slots|)
  {
    var bound := draft;
    var destinations: set<DestinationPath> := {};
    for k := 0 to |slots|
      invariant Bind(input, draft, slots, k) == Some(bound)
      invariant destinations == DestinationsOf(slots, k)
    {
      hide Bind, Wf, At, Get, Put, Placeholder;
      var slot := slots[k];
      BindStep(input, draft, slots, k, bound);
      var value := ReadSource(input, slot.source);
      var taken := slot.destination in destinations;
      Accepting(input, slots, k, bound, taken);
      hide BindSlot, DestinationsOf;
      if slot.source == [] || slot.destination == [] || value.None? || (slot.kind != Setting && !value.value.Text?) || taken
         || Get(bound, slot.destination) != Some(Text(Placeholder(k))) {
        Refused(input, draft, slots, k + 1);
        return None;
      }
      OneDestination(slots, k);
      destinations := destinations + {slot.destination};
      bound := Put(bound, slot.destination, value.value);
    }
    r := Some(bound);
  }

  function DestinationsOf(slots: seq<Slot>, k: nat): set<DestinationPath>
    requires k <= |slots|
  {
    set j | 0 <= j < k :: slots[j].destination
  }

  lemma OneDestination(slots: seq<Slot>, k: nat)
    requires k < |slots|
    ensures DestinationsOf(slots, k + 1) == DestinationsOf(slots, k) + {slots[k].destination}
  {
  }

  lemma Accepting(input: Node, slots: seq<Slot>, k: nat, bound: Node, taken: bool)
    requires k < |slots| && Wf(bound)
    requires taken <==> slots[k].destination in DestinationsOf(slots, k)
    ensures var slot, value := slots[k], At(input, slots[k].source);
      BindSlot(input, slots, k, bound)
      == if slot.source == [] || slot.destination == [] || value.None? || (slot.kind != Setting && !value.value.Text?) || taken
            || Get(bound, slot.destination) != Some(Text(Placeholder(k))) then None
         else Some(Put(bound, slot.destination, value.value))
  {
    hide At, Get, Put, Wf, Placeholder;
  }

  lemma BindStep(input: Node, draft: Node, slots: seq<Slot>, k: nat, bound: Node)
    requires Wf(input) && Wf(draft) && k < |slots| && Bind(input, draft, slots, k) == Some(bound)
    ensures Wf(bound) && Bind(input, draft, slots, k + 1) == BindSlot(input, slots, k, bound)
  {
  }

  /** Once refused, always refused. */
  lemma {:induction false} Refused(input: Node, draft: Node, slots: seq<Slot>, k: nat)
    requires Wf(input) && Wf(draft) && k <= |slots| && Bind(input, draft, slots, k).None?
    ensures Bind(input, draft, slots, |slots|).None?
    decreases |slots| - k
  {
    if k < |slots| {
      assert Bind(input, draft, slots, k + 1).None?;
      Refused(input, draft, slots, k + 1);
    }
  }
}
