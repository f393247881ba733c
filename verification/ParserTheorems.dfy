/** The parser decides the grammar: its three verdicts, and the byte at which each falls. */
module ParserTheorems {
  import opened Text
  import opened Wire
  import opened Grammar
  import GrammarCompleteness
  import GrammarSoundness

  /** `s` starts with a whole message. */
  ghost predicate HoldsMessage(s: string) {
    exists m :: WellFormed(m) && Render(m) <= s
  }

  /** `s` can be continued to a message, with at least one more byte. */
  ghost predicate Viable(s: string) {
    exists m :: WellFormed(m) && s < Render(m)
  }

  /** A message at the front of the input is accepted at its last byte, whatever follows it. */
  lemma MessageAccepted(c: Config, m: Message, s: string)
    requires Fresh(c) && WellFormed(m) && Render(m) <= s
    ensures Valid(c) && Run(c, s) == Parsed(True, |Render(m)|, Config(ContentStart, Meaning(m)))
  {
    FreshValid(c);
    GrammarCompleteness.Completeness(c, m);
    RunConcat(c, Render(m), s[|Render(m)|..]);
    assert Render(m) + s[|Render(m)|..] == s;
  }

  lemma FreshValid(c: Config)
    requires Fresh(c)
    ensures Valid(c)
  {
  }

  /** Nothing is decided before the byte that decides. */
  lemma EarlierIsUndecided(c: Config, s: string, k: nat)
    requires Valid(c) && !Run(c, s).verdict.Indeterminate? && k < Run(c, s).consumed
    ensures Run(c, s[..k]).verdict.Indeterminate?
  {
    RunConcat(c, s[..k], s[k..]);
    assert s[..k] + s[k..] == s;
  }

  lemma MessagePrefixUndecided(c: Config, m: Message, s: string)
    requires Fresh(c) && WellFormed(m) && s < Render(m)
    ensures Valid(c) && Run(c, s).verdict.Indeterminate?
  {
    MessageAccepted(c, m, Render(m));
    EarlierIsUndecided(c, Render(m), |s|);
    assert Render(m)[..|s|] == s;
  }

  /** What a run tells about the bytes it read. */
  lemma VerdictExplained(c: Config, s: string) returns (m: Message)
    requires Fresh(c) && Valid(c)
    ensures var r := Run(c, s);
      && (r.verdict.True? ==>
            WellFormed(m) && Render(m) == s[..r.consumed] && r.config == Config(ContentStart, Meaning(m)))
      && (r.verdict.Indeterminate? ==> WellFormed(m) && s < Render(m))
  {
    var draft := Message("", "", "", "", [], "");
    m := GrammarSoundness.RunSound(c, draft, s);
    var r := Run(c, s);
    assert "" + s == s && "" + s[..r.consumed] == s[..r.consumed];
    if r.verdict.Indeterminate? {
      GrammarSoundness.CompleteContinues(r.config.state, m);
      m := GrammarSoundness.Complete(m);
    }
  }

  /** Acceptance is sound and complete: the verdict is `true` exactly when the input starts
      with a message; then the request is the meaning of that message. */
  lemma AcceptsExactly(c: Config, s: string)
    requires Fresh(c) && Valid(c)
    ensures Run(c, s).verdict.True? <==> HoldsMessage(s)
    ensures forall m :: WellFormed(m) && Render(m) <= s ==>
              Run(c, s) == Parsed(True, |Render(m)|, Config(ContentStart, Meaning(m)))
  {
    var w := VerdictExplained(c, s);
    forall m | WellFormed(m) && Render(m) <= s
      ensures Run(c, s) == Parsed(True, |Render(m)|, Config(ContentStart, Meaning(m)))
    {
      MessageAccepted(c, m, s);
    }
  }

  /** More input is awaited exactly as long as some message begins like this. */
  lemma WaitsExactly(c: Config, s: string)
    requires Fresh(c) && Valid(c)
    ensures Run(c, s).verdict.Indeterminate? <==> Viable(s)
  {
    var w := VerdictExplained(c, s);
    if Viable(s) {
      var m :| WellFormed(m) && s < Render(m);
      MessagePrefixUndecided(c, m, s);
    }
  }

  /** Rejection comes at the first byte after which no message is possible any more. */
  lemma RejectsExactly(c: Config, s: string)
    requires Fresh(c) && Valid(c)
    ensures Run(c, s).verdict.False? <==> !HoldsMessage(s) && !Viable(s)
    ensures var r := Run(c, s);
            r.verdict.False? ==>
              && r.consumed > 0 && Viable(s[..r.consumed - 1])
              && !Viable(s[..r.consumed]) && !HoldsMessage(s[..r.consumed])
  {
    AcceptsExactly(c, s);
    WaitsExactly(c, s);
    var r := Run(c, s);
    if r.verdict.False? {
      RejectedAt(c, s);
      WaitsExactly(c, s[..r.consumed - 1]);
      AcceptsExactly(c, s[..r.consumed]);
      WaitsExactly(c, s[..r.consumed]);
    }
  }

  lemma RejectedAt(c: Config, s: string)
    requires Valid(c) && Run(c, s).verdict.False?
    ensures var k := Run(c, s).consumed;
            k > 0 && Run(c, s[..k - 1]).verdict.Indeterminate? && Run(c, s[..k]).verdict.False?
  {
    var k := Run(c, s).consumed;
    EarlierIsUndecided(c, s, k - 1);
    DecidedWithin(c, s, s[..k], s[k..]);
  }

  lemma DecidedWithin(c: Config, s: string, a: string, b: string)
    requires Valid(c) && s == a + b && !Run(c, s).verdict.Indeterminate? && Run(c, s).consumed == |a|
    ensures Run(c, a) == Run(c, s)
  {
    RunConcat(c, a, b);
  }

  /** For every input the unused states stay unused and `headers.back()` stays defined. */
  lemma StateInvariant(c: Config, s: string)
    requires Fresh(c) && Valid(c)
    ensures var after := Run(c, s).config;
            && !Dead(after.state)
            && (NeedsHeader(after.state) ==> after.req.headers != [])
            && !Contains(after.req.content, SENTINEL)
  {
    assert !Dead(c.state);
    assert Valid(Run(c, s).config);
  }

  // ----- version numbers -----

  function Power10(n: nat): int { if n == 0 then 1 else 10 * Power10(n - 1) }

  lemma {:induction false} DecimalBound(s: string)
    requires AllDigits(s)
    ensures 0 <= Decimal(0, s) < Power10(|s|)
    decreases |s|
  {
    if s != "" {
      DecimalBound(s[..|s| - 1]);
    }
  }

  /** At most nine digits keep both version numbers inside a 32-bit `int`. */
  lemma VersionFitsInt32(m: Message)
    requires WellFormed(m) && |m.major| <= 9 && |m.minor| <= 9
    ensures 0 <= Meaning(m).major < 0x8000_0000
    ensures 0 <= Meaning(m).minor < 0x8000_0000
  {
    DecimalBound(m.major);
    DecimalBound(m.minor);
    Power10Monotone(|m.major|, 9);
    Power10Monotone(|m.minor|, 9);
    assert Power10(9) == 1_000_000_000 by {
      assert Power10(3) == 1000;
      assert Power10(6) == 1_000_000;
    }
  }

  lemma {:induction false} Power10Monotone(a: nat, b: nat)
    requires a <= b
    ensures 1 <= Power10(a) <= Power10(b)
    decreases b
  {
    if b > 0 {
      Power10Monotone(if a == b then a - 1 else a, b - 1);
    }
  }
}
