/** The runtime object around readiness: check validation, the serving flag, the summary and shutdown. */
module Runtime {
  import opened Options
  import opened Readiness

  // A configured check; the criticality is a free string in the configuration.
  datatype Configured = Configured(name: string, criticality: string, hasProbe: bool)

  datatype ConfigError = BadName | DuplicateName | BadCriticality | NilProbe

  datatype Validated = Accepted(checks: Checks) | Refused(error: ConfigError, at: nat)

  predicate IsSpace(c: char) {
    || c in {' ', '\t', '\n', '\r', '\U{000B}', '\U{000C}', '\U{0085}', '\U{00A0}', '\U{1680}'}
    || '\U{2000}' <= c <= '\U{200A}'
    || c in {'\U{2028}', '\U{2029}', '\U{202F}', '\U{205F}', '\U{3000}'}
  }

  function TrimLeft(s: string): (r: string)
    ensures |r| <= |s| && r == s[|s| - |r|..] && (forall i | 0 <= i < |s| - |r| :: IsSpace(s[i]))
    ensures r != "" ==> !IsSpace(r[0])
  {
    if s != "" && IsSpace(s[0]) then TrimLeft(s[1..]) else s
  }

  function TrimRight(s: string): (r: string)
    ensures r <= s && (forall i | |r| <= i < |s| :: IsSpace(s[i]))
    ensures r != "" ==> !IsSpace(r[|r| - 1])
  {
    if s != "" && IsSpace(s[|s| - 1]) then TrimRight(s[..|s| - 1]) else s
  }

  predicate AllSpace(s: string) {
    forall i | 0 <= i < |s| :: IsSpace(s[i])
  }

  function TrimSpace(s: string): (r: string)
    ensures r != "" ==> !IsSpace(r[0]) && !IsSpace(r[|r| - 1])
  {
    TrimRight(TrimLeft(s))
  }

  // Trimming keeps what stands between the outer spaces.
  lemma TrimKeepsMiddle(s: string) returns (i: nat, j: nat)
    ensures i <= j <= |s| && TrimSpace(s) == s[i..j] && AllSpace(s[..i]) && AllSpace(s[j..])
  {
    hide IsSpace, TrimLeft, TrimRight;
    var left := TrimLeft(s);
    var r := TrimRight(left);
    i := |s| - |left|;
    j := i + |r|;
    assert s[i..j] == left[..|r|];
    forall k | 0 <= k < |s[j..]|
      ensures IsSpace(s[j..][k])
    {
      assert s[j..][k] == left[|r| + k];
    }
  }

  predicate IsLower(c: char) { 'a' <= c <= 'z' }

  predicate IsNameChar(c: char) { IsLower(c) || '0' <= c <= '9' || c == '-' }

  // The pattern ^[a-z][a-z0-9-]*$.
  predicate MatchesPattern(s: string) {
    s != "" && IsLower(s[0]) && forall i | 0 < i < |s| :: IsNameChar(s[i])
  }

  predicate KnownCriticality(s: string) { s == "strong" || s == "weak" }

  function Parsed(c: Configured): Check {
    Check(TrimSpace(c.name), if c.criticality == "strong" then Strong else Weak)
  }

  // Check i can stand next to the ones before it.
  ghost predicate Fits(configured: seq<Configured>, i: nat)
    requires i < |configured|
  {
    && MatchesPattern(TrimSpace(configured[i].name)) && !Taken(configured, i)
    && KnownCriticality(configured[i].criticality) && configured[i].hasProbe
  }

  ghost predicate Taken(configured: seq<Configured>, i: nat)
    requires i < |configured|
  {
    var name := TrimSpace(configured[i].name);
    name == SERVING_CHECK || exists j :: 0 <= j < i && TrimSpace(configured[j].name) == name
  }

  // The first rule check i breaks.
  ghost predicate Breaks(configured: seq<Configured>, i: nat, error: ConfigError)
    requires i < |configured|
  {
    var c := configured[i];
    match error
    case BadName => !MatchesPattern(TrimSpace(c.name))
    case DuplicateName => MatchesPattern(TrimSpace(c.name)) && Taken(configured, i)
    case BadCriticality =>
      MatchesPattern(TrimSpace(c.name)) && !Taken(configured, i) && !KnownCriticality(c.criticality)
    case NilProbe =>
      && MatchesPattern(TrimSpace(c.name)) && !Taken(configured, i)
      && KnownCriticality(c.criticality) && !c.hasProbe
  }

  // Accepts exactly the lists whose checks all fit, and otherwise names the first one that does not.
  method ValidateChecks(configured: seq<Configured>) returns (result: Validated)
    ensures result.Accepted? <==> forall i | 0 <= i < |configured| :: Fits(configured, i)
    ensures result.Accepted? ==>
              && |result.checks| == |configured|
              && (forall i | 0 <= i < |configured| ::
                    && result.checks[i].name == TrimSpace(configured[i].name)
                    && (result.checks[i].criticality == Strong <==> configured[i].criticality == "strong")
                    && (result.checks[i].criticality == Weak <==> configured[i].criticality == "weak"))
              && WellFormed([Check(SERVING_CHECK, Strong)] + result.checks)
    ensures result.Refused? ==>
              && result.at < |configured| && Breaks(configured, result.at, result.error)
              && forall i | 0 <= i < result.at :: Fits(configured, i)
  {
    hide TrimSpace, MatchesPattern;
    var seen := {SERVING_CHECK};
    var checks: Checks := [];
    for i := 0 to |configured|
      invariant |checks| == i
      invariant forall j | 0 <= j < i :: Fits(configured, j) && checks[j] == Parsed(configured[j])
      invariant seen == {SERVING_CHECK} + set j | 0 <= j < i :: TrimSpace(configured[j].name)
    {
      var name := TrimSpace(configured[i].name);
      if !MatchesPattern(name) {
        assert !Fits(configured, i);
        return Refused(BadName, i);
      }
      if name in seen {
        assert !Fits(configured, i);
        return Refused(DuplicateName, i);
      }
      seen := seen + {name};
      if !KnownCriticality(configured[i].criticality) {
        assert !Fits(configured, i);
        return Refused(BadCriticality, i);
      }
      if !configured[i].hasProbe {
        assert !Fits(configured, i);
        return Refused(NilProbe, i);
      }
      checks := checks + [Parsed(configured[i])];
    }
    return Accepted(checks);
  }

  class Runtime {
    var serving: bool
    var summary: Status
    var providerShutdowns: nat
    var shutdownError: Option<string>
    const provider: nat -> Option<string>

    constructor (provider: nat -> Option<string>)
      ensures !serving && summary == Error && providerShutdowns == 0 && shutdownError == None
      ensures this.provider == provider
    {
      serving, summary, providerShutdowns, shutdownError := false, Error, 0, None;
      this.provider := provider;
    }

    // The provider is shut down at most once and its answer is remembered.
    ghost predicate Valid()
      reads this
    {
      providerShutdowns <= 1 && (providerShutdowns == 1 ==> shutdownError == provider(0))
    }

    method UpdateSummary(status: Status)
      modifies this`summary
      ensures summary == status
    {
      summary := status;
    }

    method SetServing(value: bool)
      modifies this`serving, this`summary
      ensures serving == value
      ensures summary == if value then old(summary) else Error
    {
      serving := value;
      if !value {
        UpdateSummary(Error);
      }
    }

    method Shutdown() returns (error: Option<string>)
      requires Valid()
      modifies this
      ensures Valid() && !serving && summary == Error && providerShutdowns == 1 && error == provider(0)
    {
      SetServing(false);
      if providerShutdowns == 0 {
        shutdownError := provider(providerShutdowns);
        providerShutdowns := providerShutdowns + 1;
      }
      return shutdownError;
    }
  }
}
