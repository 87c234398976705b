/** The candidates of a prompt as they are built: edited in place under a running
    counter, which is proved to be the size counted from scratch. */
module PromptBuilder {
  import opened Wrappers
  import opened AsciiJson
  import opened Batching
  import opened PromptBudget
  import opened PromptTheorems

  datatype PromptError = NameTooLong | IdentitiesTooLarge | Indistinguishable

  predicate NamesOk(mentions: Mentions) {
    forall m, c :: 0 <= m < |mentions| && 0 <= c < |mentions[m]| ==> CodePoints(mentions[m][c].name) <= MAX_NAME
  }

  predicate Distinguishable(ps: seq<Projected>) {
    forall c, d :: 0 <= c < d < |ps| ==> !Alike(ps[c], ps[d])
  }

  predicate AllDistinguishable(prompt: Prompt) {
    forall m :: 0 <= m < |prompt| ==> Distinguishable(prompt[m])
  }

  /** The prompt, or the first reason why there is none. */
  function PromptFor(mentions: Mentions): Result<Prompt, PromptError> {
    if !NamesOk(mentions) then Err(NameTooLong)
    else if Size(BarePrompt(mentions)) > MAX_PAYLOAD_BYTES then Err(IdentitiesTooLarge)
    else if !AllDistinguishable(Filled(mentions)) then Err(Indistinguishable)
    else Ok(Filled(mentions))
  }

  method TruncateUtf8Bytes(value: Text, maximum: nat) returns (retained: Text)
    ensures retained == Truncate(value, maximum)
  {
    if Utf8Length(value) <= maximum {
      WholeIsKept(value, maximum);
      return value;
    }
    retained := [];
    var bytes := 0;
    var rest := value;
    while rest != []
      invariant bytes <= maximum
      invariant Truncate(value, maximum) == retained + Truncate(rest, maximum - bytes)
      decreases |rest|
    {
      var character := rest[..FirstUnits(rest)];
      var characterBytes := Utf8Length(character);
      if bytes + characterBytes > maximum { break; }
      Associate(retained, character, Truncate(rest[FirstUnits(rest)..], maximum - bytes - characterBytes));
      retained := retained + character;
      bytes := bytes + characterBytes;
      rest := rest[FirstUnits(rest)..];
    }
    assert retained + [] == retained;
  }

  /** A text within the limit is kept whole. */
  lemma {:induction false} WholeIsKept(t: Text, maximum: nat)
    requires Utf8Length(t) <= maximum
    ensures Truncate(t, maximum) == t
    decreases |t|
  {
    if t != [] {
      FirstLength(t);
      WholeIsKept(t[FirstUnits(t)..], maximum - Utf8Length(t[..FirstUnits(t)]));
      assert t == t[..FirstUnits(t)] + t[FirstUnits(t)..];
    }
  }

  class Builder {
    var candidates: Prompt
    var candidateBytes: nat

    ghost predicate Valid()
      reads this
    {
      candidateBytes == Size(candidates) && candidateBytes <= MAX_PAYLOAD_BYTES
    }

    /** Only names and identifiers so far. */
    constructor (mentions: Mentions)
      ensures candidates == BarePrompt(mentions) && candidateBytes == Size(candidates)
    {
      candidates := BarePrompt(mentions);
      candidateBytes := Size(BarePrompt(mentions));
    }

    /** Show an edited candidate, unless it takes the prompt over its budget. */
    method Edit(m: nat, c: nat, edited: Projected)
      requires Valid() && Inside(candidates, m, c)
      modifies this
      ensures Valid() && candidates == Try(old(candidates), m, c, edited)
    {
      hide Size, CandidateBytes;
      var projected := candidates[m][c];
      var before := CandidateBytes(projected);
      candidates := Replace(candidates, m, c, edited);
      var after := CandidateBytes(edited);
      ReplaceSize(old(candidates), m, c, edited);
      if candidateBytes + after - before <= MAX_PAYLOAD_BYTES {
        candidateBytes := candidateBytes + after - before;
      } else {
        candidates := Replace(candidates, m, c, projected);
        assert old(candidates)[m][c := edited][c := projected] == old(candidates)[m];
        assert candidates == old(candidates);
      }
    }

    method FillCandidate(m: nat, c: nat, source: Candidate)
      requires Valid() && Inside(candidates, m, c)
      modifies this
      ensures Valid() && candidates == AddCandidate(old(candidates), m, c, source)
    {
      hide Size, Try, Truncate;
      var description := TruncateUtf8Bytes(source.description, MAX_DESCRIPTION_BYTES);
      Edit(m, c, candidates[m][c].(description := description));
      ghost var start := AddDescription(old(candidates), m, c, description);
      ghost var offers := Offers(source);
      var aliases := if |source.aliases| > MAX_ALIASES then source.aliases[..MAX_ALIASES] else source.aliases;
      for a := 0 to |aliases|
        invariant Valid() && Inside(start, m, c)
        invariant candidates == AddAliases(start, m, c, offers[..a])
      {
        var alias := TruncateUtf8Bytes(aliases[a], MAX_ALIAS_BYTES);
        assert offers[..a + 1][..a] == offers[..a] && offers[..a + 1][a] == alias;
        if |alias| > 0 {
          Edit(m, c, candidates[m][c].(aliases := candidates[m][c].aliases + [alias]));
        }
      }
      assert offers[..|aliases|] == offers;
    }

    method FillCandidates(mentions: Mentions)
      requires Valid() && candidates == BarePrompt(mentions)
      modifies this
      ensures Valid() && candidates == Filled(mentions)
    {
      hide Size, AddCandidate;
      ghost var bare := candidates;
      for m := 0 to |mentions|
        invariant Valid() && Matches(bare, mentions)
        invariant candidates == AddMentions(bare, m, mentions)
      {
        ghost var start := candidates;
        for c := 0 to |mentions[m]|
          invariant Valid() && m < |start| && |start[m]| == |mentions[m]|
          invariant candidates == AddMention(start, m, c, mentions[m])
        {
          FillCandidate(m, c, mentions[m][c]);
        }
      }
    }
  }

  method CheckNames(mentions: Mentions) returns (ok: bool)
    ensures ok == NamesOk(mentions)
  {
    for m := 0 to |mentions|
      invariant NamesOk(mentions[..m])
    {
      for c := 0 to |mentions[m]|
        invariant forall d :: 0 <= d < c ==> CodePoints(mentions[m][d].name) <= MAX_NAME
      {
        if CodePoints(mentions[m][c].name) > MAX_NAME { return false; }
      }
      assert mentions[..m + 1] == mentions[..m] + [mentions[m]];
    }
    assert mentions[..|mentions|] == mentions;
    ok := true;
  }

  method CheckIdentities(ps: seq<Projected>) returns (ok: bool)
    ensures ok == Distinguishable(ps)
  {
    hide Ascii, IdentityText, Alike;
    var identities: set<Text> := {};
    for c := 0 to |ps|
      invariant Distinguishable(ps[..c])
      invariant identities == Identities(ps[..c])
    {
      var identity := Ascii(IdentityText(ps[c]));
      forall d | 0 <= d < c ensures identity == Ascii(IdentityText(ps[..c][d])) <==> Alike(ps[d], ps[c]) {
        IdentityIsWhatIsShown(ps[d], ps[c]);
      }
      assert ps[..c + 1] == ps[..c] + [ps[c]];
      IdentitiesSnoc(ps[..c], ps[c]);
      if identity in identities {
        var d :| 0 <= d < c && identity == Ascii(IdentityText(ps[..c][d]));
        assert Alike(ps[d], ps[c]);
        return false;
      }
      identities := identities + {identity};
    }
    assert ps[..|ps|] == ps;
    ok := true;
  }

  function Identities(ps: seq<Projected>): set<Text> {
    set d | 0 <= d < |ps| :: Ascii(IdentityText(ps[d]))
  }

  lemma IdentitiesSnoc(ps: seq<Projected>, p: Projected)
    ensures Identities(ps + [p]) == Identities(ps) + {Ascii(IdentityText(p))}
  {
    var more := ps + [p];
    forall x | x in Identities(ps) ensures x in Identities(more) {
      var d :| 0 <= d < |ps| && x == Ascii(IdentityText(ps[d]));
      assert more[d] == ps[d];
    }
    assert more[|ps|] == p;
  }

  method CheckPrompt(prompt: Prompt) returns (ok: bool)
    ensures ok == AllDistinguishable(prompt)
  {
    hide Distinguishable;
    for m := 0 to |prompt|
      invariant AllDistinguishable(prompt[..m])
    {
      ok := CheckIdentities(prompt[m]);
      if !ok {
        assert !Distinguishable(prompt[m]);
        return;
      }
      assert prompt[..m + 1] == prompt[..m] + [prompt[m]];
    }
    assert prompt[..|prompt|] == prompt;
    ok := true;
  }

  /** The candidates of the prompt, or why there are none. */
  method ResolutionPromptMentions(mentions: Mentions) returns (r: Result<Prompt, PromptError>)
    ensures r == PromptFor(mentions)
  {
    hide Size, Filled, AllDistinguishable, NamesOk;
    var names := CheckNames(mentions);
    if !names { return Err(NameTooLong); }
    var builder := new Builder(mentions);
    if builder.candidateBytes > MAX_PAYLOAD_BYTES { return Err(IdentitiesTooLarge); }
    builder.FillCandidates(mentions);
    var ok := CheckPrompt(builder.candidates);
    if !ok { return Err(Indistinguishable); }
    r := Ok(builder.candidates);
  }

  /** The prompt is refused exactly for a name of more than 500 characters, for
      identities that are over the budget by themselves, or for two candidates of one
      mention that show the same; the first of these decides. */
  lemma RefusedExactly(mentions: Mentions)
    ensures PromptFor(mentions) == Err(NameTooLong)
      <==> exists m, c :: 0 <= m < |mentions| && 0 <= c < |mentions[m]| && CodePoints(mentions[m][c].name) > MAX_NAME
    ensures PromptFor(mentions) == Err(IdentitiesTooLarge)
      <==> NamesOk(mentions) && Size(BarePrompt(mentions)) > MAX_PAYLOAD_BYTES
    ensures PromptFor(mentions) == Err(Indistinguishable)
      <==> NamesOk(mentions) && Size(BarePrompt(mentions)) <= MAX_PAYLOAD_BYTES
           && exists m, c, d :: 0 <= m < |Filled(mentions)| && 0 <= c < d < |Filled(mentions)[m]|
                                && Alike(Filled(mentions)[m][c], Filled(mentions)[m][d])
  {
    hide Size, Filled, Alike, CodePoints;
    var r := Filled(mentions);
    if !AllDistinguishable(r) {
      var m :| 0 <= m < |r| && !Distinguishable(r[m]);
      var c, d :| 0 <= c < d < |r[m]| && Alike(r[m][c], r[m][d]);
      assert Alike(r[m][c], r[m][d]);
    }
    if m, c, d :| 0 <= m < |r| && 0 <= c < d < |r[m]| && Alike(r[m][c], r[m][d]) {
      assert !Distinguishable(r[m]);
    }
  }

  /** A prompt that is handed out is within its budget, shows all it can of every
      candidate, and tells the candidates of each mention apart. */
  lemma PromptIsGood(mentions: Mentions)
    requires PromptFor(mentions).Ok?
    ensures var r := PromptFor(mentions).value;
      && Size(r) <= MAX_PAYLOAD_BYTES && Matches(r, mentions) && AllDistinguishable(r)
      && forall m, c :: 0 <= m < |r| && 0 <= c < |r[m]| ==> Done(mentions[m][c], r[m][c], Size(r))
  {
    hide Size, Filled, Done, Distinguishable;
    FilledIsMaximal(mentions);
  }
}
