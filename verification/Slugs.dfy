/** Allocating an application slug that is free for its user. */
module Slugs {
  import opened Domain
  import opened Decimal

  const MAX_SLUG: nat := 63
  const ATTEMPTS: nat := 512

  datatype AppRow = AppRow(slug: string, serviceSlug: string, deleted: bool)

  predicate SlugStart(c: char) {
    'a' <= c <= 'z' || '0' <= c <= '9'
  }

  predicate SlugChar(c: char) {
    SlugStart(c) || c == '-'
  }

  /** ^[a-z0-9][a-z0-9-]{0,62}$ */
  predicate SlugPattern(s: string) {
    1 <= |s| <= MAX_SLUG && SlugStart(s[0]) && forall i :: 0 <= i < |s| ==> SlugChar(s[i])
  }

  /** strings.TrimRight(s, "-") */
  function TrimDashes(s: string): (r: string)
    ensures r <= s && (r == "" || r[|r| - 1] != '-')
    ensures forall i :: |r| <= i < |s| ==> s[i] == '-'
  {
    if s != "" && s[|s| - 1] == '-' then TrimDashes(s[..|s| - 1]) else s
  }

  function Core(base: string, maxCore: nat): (core: string)
    ensures |core| <= maxCore
  {
    var core := TrimDashes(base);
    if |core| > maxCore then TrimDashes(core[..maxCore]) else core
  }

  /** nextAppSlugCandidate */
  function NextAppSlugCandidate(base: string, attempt: nat): string
    requires attempt < ATTEMPTS
  {
    if attempt == 0 then base else
      var suffix := Text(attempt + 1);
      TextUpTo3Digits(attempt + 1);
      Core(base, MAX_SLUG - |suffix| - 1) + "-" + suffix
  }

  predicate Taken(apps: seq<AppRow>, candidate: string) {
    exists i :: 0 <= i < |apps| && !apps[i].deleted && (apps[i].slug == candidate || apps[i].serviceSlug == candidate)
  }

  predicate TakenBetween(apps: seq<AppRow>, base: string, from: nat, to: nat)
    requires to <= ATTEMPTS
  {
    forall j :: from <= j < to ==> Taken(apps, NextAppSlugCandidate(base, j))
  }

  /** The attempt at which the loop of allocateUserAppSlug stops, counting from `attempt`. */
  function FirstFreeAttempt(apps: seq<AppRow>, base: string, attempt: nat): (k: nat)
    requires attempt <= ATTEMPTS
    ensures attempt <= k <= ATTEMPTS
    ensures k < ATTEMPTS ==> !Taken(apps, NextAppSlugCandidate(base, k))
    decreases ATTEMPTS - attempt
  {
    if attempt == ATTEMPTS || !Taken(apps, NextAppSlugCandidate(base, attempt)) then attempt
    else FirstFreeAttempt(apps, base, attempt + 1)
  }

  /** Every candidate before it is taken. */
  lemma {:induction false} EarlierAreTaken(apps: seq<AppRow>, base: string, attempt: nat, j: nat)
    requires attempt <= j < ATTEMPTS
    ensures j < FirstFreeAttempt(apps, base, attempt) ==> Taken(apps, NextAppSlugCandidate(base, j))
    decreases ATTEMPTS - attempt
  {
    if attempt < j { EarlierAreTaken(apps, base, attempt + 1, j); }
  }

  function Allocated(apps: seq<AppRow>, base: string): Option<string> {
    var k := FirstFreeAttempt(apps, base, 0);
    if k == ATTEMPTS then None else Some(NextAppSlugCandidate(base, k))
  }

  method AllocateUserAppSlug(apps: seq<AppRow>, base: string) returns (slug: Option<string>)
    ensures slug == Allocated(apps, base)
  {
    var attempt := 0;
    while attempt < ATTEMPTS
      invariant 0 <= attempt <= ATTEMPTS
      invariant FirstFreeAttempt(apps, base, attempt) == FirstFreeAttempt(apps, base, 0)
    {
      var candidate := NextAppSlugCandidate(base, attempt);
      if !Taken(apps, candidate) { return Some(candidate); }
      attempt := attempt + 1;
    }
    return None;
  }

  // ---------------------------------------------------------------- candidates

  lemma CoreStarts(base: string, maxCore: nat)
    requires SlugPattern(base) && maxCore > 0
    ensures var core := Core(base, maxCore);
      core != "" && core[0] == base[0] && forall i :: 0 <= i < |core| ==> SlugChar(core[i])
  {
    var core := TrimDashes(base);
    assert core != "" && core[0] == base[0];
    if |core| > maxCore {
      var cut := core[..maxCore];
      assert cut[0] == base[0];
      assert TrimDashes(cut) != "";
      assert TrimDashes(cut)[0] == cut[0];
    }
  }

  /** Every candidate is a slug. */
  lemma CandidateIsSlug(base: string, attempt: nat)
    requires SlugPattern(base) && attempt < ATTEMPTS
    ensures SlugPattern(NextAppSlugCandidate(base, attempt))
  {
    if attempt > 0 {
      TextUpTo3Digits(attempt + 1);
      CoreStarts(base, MAX_SLUG - |Text(attempt + 1)| - 1);
    }
  }

  lemma CoreKeeps(base: string, maxCore: nat)
    requires SlugPattern(base) && maxCore > 0
    ensures var core := Core(base, maxCore);
      && core != "" && core <= base && core[|core| - 1] != '-'
      && (|base| <= maxCore && base[|base| - 1] != '-' ==> core == base)
  {
    CoreStarts(base, maxCore);
  }

  lemma CandidateIs(base: string, attempt: nat)
    requires 0 < attempt < ATTEMPTS
    ensures |Text(attempt + 1)| <= 3
    ensures NextAppSlugCandidate(base, attempt)
         == Core(base, MAX_SLUG - |Text(attempt + 1)| - 1) + "-" + Text(attempt + 1)
  {
    TextUpTo3Digits(attempt + 1);
  }

  /** `candidate` is the base, or what of it leaves room, with a dash and `number` behind it; a base that leaves
      room is kept whole. */
  ghost predicate Numbered(base: string, candidate: string, number: string) {
    exists core :: core != "" && core <= base && candidate == core + "-" + number && core[|core| - 1] != '-'
                   && (|base| + 1 + |number| <= MAX_SLUG && base[|base| - 1] != '-' ==> core == base)
  }

  lemma CandidateMeans(base: string, attempt: nat)
    requires SlugPattern(base) && attempt < ATTEMPTS
    ensures if attempt == 0 then NextAppSlugCandidate(base, attempt) == base
            else Numbered(base, NextAppSlugCandidate(base, attempt), Text(attempt + 1))
  {
    if attempt > 0 {
      CandidateIs(base, attempt);
      CoreKeeps(base, MAX_SLUG - |Text(attempt + 1)| - 1);
    }
  }

  /** The text after the last dash is the same when the whole is. */
  lemma SuffixDetermined(a: string, d: string, b: string, e: string)
    requires AllDigits(d) && AllDigits(e) && a + "-" + d == b + "-" + e
    ensures d == e
  {
    var s := a + "-" + d;
    assert s[|a|] == '-' && s[|b|] == '-';
    assert d == s[|a| + 1..] && e == s[|b| + 1..];
    assert forall i :: |a| < i < |s| ==> IsDigit(s[i]);
    assert forall i :: |b| < i < |s| ==> IsDigit(s[i]);
  }

  /** The numbered candidates differ from each other. */
  lemma CandidatesDistinct(base: string, j: nat, k: nat)
    requires 0 < j < ATTEMPTS && 0 < k < ATTEMPTS && NextAppSlugCandidate(base, j) == NextAppSlugCandidate(base, k)
    ensures j == k
  {
    TextUpTo3Digits(j + 1);
    TextUpTo3Digits(k + 1);
    SuffixDetermined(Core(base, MAX_SLUG - |Text(j + 1)| - 1), Text(j + 1),
                     Core(base, MAX_SLUG - |Text(k + 1)| - 1), Text(k + 1));
    TextInjective(j + 1, k + 1);
  }

  // ---------------------------------------------------------------- pigeonhole

  /** The candidates of attempts 1 to n-1. */
  function Candidates(base: string, n: nat): set<string>
    requires n <= ATTEMPTS
  {
    if n <= 1 then {} else Candidates(base, n - 1) + {NextAppSlugCandidate(base, n - 1)}
  }

  lemma {:induction false} CandidateOf(base: string, n: nat, s: string)
    requires n <= ATTEMPTS && s in Candidates(base, n)
    ensures exists k :: 1 <= k < n && s == NextAppSlugCandidate(base, k)
  {
    if s == NextAppSlugCandidate(base, n - 1) {} else { CandidateOf(base, n - 1, s); }
  }

  lemma {:induction false} CandidatesCounted(base: string, n: nat)
    requires 1 <= n <= ATTEMPTS
    ensures |Candidates(base, n)| == n - 1
  {
    if n > 1 {
      CandidatesCounted(base, n - 1);
      if NextAppSlugCandidate(base, n - 1) in Candidates(base, n - 1) {
        CandidateOf(base, n - 1, NextAppSlugCandidate(base, n - 1));
        var k :| 1 <= k < n - 1 && NextAppSlugCandidate(base, n - 1) == NextAppSlugCandidate(base, k);
        CandidatesDistinct(base, n - 1, k);
        assert false;
      }
    }
  }

  /** The names the live applications hold; createApp writes the same text to both columns. */
  function Held(apps: seq<AppRow>): (r: set<string>)
    requires forall i :: 0 <= i < |apps| ==> apps[i].slug == apps[i].serviceSlug
    ensures forall s :: s in r <==> Taken(apps, s)
  {
    if apps == [] then {} else
      var last := apps[|apps| - 1];
      var rest := Held(apps[..|apps| - 1]);
      var r := if last.deleted then rest else rest + {last.slug};
      assert forall s :: Taken(apps, s) <==> Taken(apps[..|apps| - 1], s) || (!last.deleted && last.slug == s);
      r
  }

  function LiveApps(apps: seq<AppRow>): nat {
    if apps == [] then 0 else LiveApps(apps[..|apps| - 1]) + if apps[|apps| - 1].deleted then 0 else 1
  }

  lemma {:induction false} HeldAtMostLive(apps: seq<AppRow>)
    requires forall i :: 0 <= i < |apps| ==> apps[i].slug == apps[i].serviceSlug
    ensures |Held(apps)| <= LiveApps(apps)
  {
    if apps != [] { HeldAtMostLive(apps[..|apps| - 1]); }
  }

  lemma SubsetSmaller(a: set<string>, b: set<string>)
    requires a <= b
    ensures |a| <= |b|
    decreases |a|
  {
    if a != {} {
      var x :| x in a;
      SubsetSmaller(a - {x}, b - {x});
    }
  }

  lemma AllCandidatesHeld(apps: seq<AppRow>, base: string, n: nat)
    requires n <= ATTEMPTS && TakenBetween(apps, base, 0, n)
    requires forall i :: 0 <= i < |apps| ==> apps[i].slug == apps[i].serviceSlug
    ensures Candidates(base, n) <= Held(apps)
  {
    forall s | s in Candidates(base, n) ensures s in Held(apps) {
      CandidateOf(base, n, s);
    }
  }

  lemma FailureNeedsManyApps(apps: seq<AppRow>, base: string, n: nat)
    requires 1 <= n <= ATTEMPTS && TakenBetween(apps, base, 0, n)
    requires forall i :: 0 <= i < |apps| ==> apps[i].slug == apps[i].serviceSlug
    ensures LiveApps(apps) >= n - 1
  {
    CandidatesCounted(base, n);
    AllCandidatesHeld(apps, base, n);
    HeldAtMostLive(apps);
    SubsetSmaller(Candidates(base, n), Held(apps));
  }

  /** Allocation succeeds for every user with at most 510 live applications, and returns the first
      candidate that is free, which is a slug. */
  lemma AllocationSucceeds(apps: seq<AppRow>, base: string)
    requires forall i :: 0 <= i < |apps| ==> apps[i].slug == apps[i].serviceSlug
    requires SlugPattern(base) && LiveApps(apps) <= 510
    ensures var r := Allocated(apps, base);
      r.Some? && SlugPattern(r.value) && !Taken(apps, r.value)
  {
    var k := FirstFreeAttempt(apps, base, 0);
    if k == ATTEMPTS {
      forall j | 0 <= j < k ensures Taken(apps, NextAppSlugCandidate(base, j)) {
        EarlierAreTaken(apps, base, 0, j);
      }
      FailureNeedsManyApps(apps, base, k);
    } else {
      CandidateIsSlug(base, k);
    }
  }

  /** Live applications that hold the candidates of attempts 1 to n-1. */
  function Filled(base: string, n: nat): (apps: seq<AppRow>)
    requires n <= ATTEMPTS
    ensures forall i :: 0 <= i < |apps| ==> apps[i].slug == apps[i].serviceSlug && !apps[i].deleted
    ensures |apps| == if n == 0 then 0 else n - 1
  {
    if n <= 1 then [] else
      var slug := NextAppSlugCandidate(base, n - 1);
      Filled(base, n - 1) + [AppRow(slug, slug, false)]
  }

  lemma {:induction false} FilledHolds(base: string, n: nat, k: nat)
    requires 1 <= k < n <= ATTEMPTS
    ensures Taken(Filled(base, n), NextAppSlugCandidate(base, k))
  {
    var apps := Filled(base, n);
    if k == n - 1 {
      assert apps[n - 2].slug == NextAppSlugCandidate(base, k);
    } else {
      FilledHolds(base, n - 1, k);
      var rest := Filled(base, n - 1);
      var slug := NextAppSlugCandidate(base, k);
      var i :| 0 <= i < |rest| && !rest[i].deleted && (rest[i].slug == slug || rest[i].serviceSlug == slug);
      assert apps[i] == rest[i];
    }
  }

  lemma {:induction false} AllLive(apps: seq<AppRow>)
    requires forall i :: 0 <= i < |apps| ==> !apps[i].deleted
    ensures LiveApps(apps) == |apps|
  {
    if apps != [] { AllLive(apps[..|apps| - 1]); }
  }

  /** Sixty-one letters, and the second candidate of its own numbering. */
  function TightBase(): (s: string)
    ensures SlugPattern(s)
  {
    seq(61, _ => 'a') + "-2"
  }

  lemma TightBaseRepeats()
    ensures NextAppSlugCandidate(TightBase(), 1) == TightBase()
  {
    var letters := seq(61, _ => 'a');
    assert Text(2) == "2";
    assert TrimDashes(TightBase()) == TightBase();
    assert TightBase()[..61] == letters;
    assert TrimDashes(letters) == letters;
  }

  lemma FullWhenFilled(base: string, n: nat)
    requires n == ATTEMPTS && NextAppSlugCandidate(base, 1) == base
    ensures LiveApps(Filled(base, n)) == 511 && Allocated(Filled(base, n), base).None?
  {
    var apps := Filled(base, n);
    AllLive(apps);
    forall j | 0 <= j < ATTEMPTS ensures Taken(apps, NextAppSlugCandidate(base, j)) {
      FilledHolds(base, n, if j == 0 then 1 else j);
    }
  }

  /** 510 is exact: a base that is its own second candidate has 511 candidates in all, and 511 live
      applications can hold them. */
  lemma AllocationCanFailAt511()
    ensures exists apps: seq<AppRow>, base ::
      && SlugPattern(base) && (forall i :: 0 <= i < |apps| ==> apps[i].slug == apps[i].serviceSlug)
      && LiveApps(apps) == 511 && Allocated(apps, base).None?
  {
    TightBaseRepeats();
    var base := TightBase();
    var n :| n == ATTEMPTS;
    FullWhenFilled(base, n);
  }
}
