/** What a partly known process can turn out to be, and when that decides a flow. */
module Identities {
  import opened CoreTypes
  import opened Scopes
  import opened RuleSets
  import opened ThreeValued

  /** The class of the answer every process that completes `p` gets. */
  ghost predicate IdentitiesAgree(rules: seq<Rule>, c: Connection, p: Process, now: int, outcome: Outcome) {
    forall q | Completes(p, q) :: OutcomeOf(Candidates(rules, c, q, now)) == outcome
  }

  // ---- Finitely many processes stand for all ------------------------------------------------

  ghost function NamedExes(rules: seq<Rule>): set<string> {
    set r | r in rules && r.scope.exePath.Some? :: r.scope.exePath.value
  }

  ghost function NamedDigests(rules: seq<Rule>): set<string> {
    set r | r in rules && r.scope.exeSha256.Some? :: r.scope.exeSha256.value
  }

  ghost function NamedUids(rules: seq<Rule>): set<u32> {
    set r | r in rules && r.scope.uid.Some? :: r.scope.uid.value
  }

  /** The values named, and one that is not, if there is one. */
  ghost function WithAnother<T(!new)>(named: set<T>): set<T> {
    if exists x :: x !in named then
      var x :| x !in named;
      named + {x}
    else named
  }

  lemma AnotherStandsFor<T(!new)>(named: set<T>, v: T) returns (w: T)
    ensures w in WithAnother(named) && (w == v || (v !in named && w !in named))
  {
    if v in named {
      w := v;
    } else {
      w :| w in WithAnother(named) && w !in named;
    }
  }

  ghost function SampleExes(rules: seq<Rule>, p: Process): set<string> {
    if p.ExeIsKnown() then {p.exe} else WithAnother(NamedExes(rules) + {UNKNOWN_EXE}) - {UNKNOWN_EXE}
  }

  ghost function SampleUids(rules: seq<Rule>, p: Process): set<u32> {
    if p.uid.Some? then {p.uid.value} else WithAnother(NamedUids(rules))
  }

  ghost function SampleDigests(rules: seq<Rule>, p: Process): set<string> {
    if p.sha256.Some? then {p.sha256.value} else WithAnother(NamedDigests(rules))
  }

  /** The completions of a process that differ in what the rules ask about. */
  ghost function Samples(rules: seq<Rule>, p: Process): set<Process> {
    set exe, uid, digest |
      exe in SampleExes(rules, p) && uid in SampleUids(rules, p) && digest in SampleDigests(rules, p) ::
      Process(exe, Some(uid), Some(digest))
  }

  lemma SamplesComplete(rules: seq<Rule>, p: Process, q: Process)
    requires q in Samples(rules, p)
    ensures Completes(p, q)
  {
  }

  /** Two processes no rule tells apart. */
  ghost predicate Alike(rules: seq<Rule>, p: Process, q: Process)
    requires FullyKnown(p) && FullyKnown(q)
  {
    && (p.exe == q.exe || (p.exe !in NamedExes(rules) && q.exe !in NamedExes(rules)))
    && (p.uid == q.uid || (p.uid.value !in NamedUids(rules) && q.uid.value !in NamedUids(rules)))
    && (p.sha256 == q.sha256 || (p.sha256.value !in NamedDigests(rules) && q.sha256.value !in NamedDigests(rules)))
  }

  lemma SampleExe(rules: seq<Rule>, p: Process, v: string) returns (w: string)
    requires v != UNKNOWN_EXE && (p.ExeIsKnown() ==> v == p.exe)
    ensures w in SampleExes(rules, p) && (w == v || (v !in NamedExes(rules) && w !in NamedExes(rules)))
  {
    hide WithAnother, NamedExes;
    if p.ExeIsKnown() {
      w := v;
    } else {
      w := AnotherStandsFor(NamedExes(rules) + {UNKNOWN_EXE}, v);
    }
  }

  lemma SampleUid(rules: seq<Rule>, p: Process, v: u32) returns (w: u32)
    requires p.uid.Some? ==> v == p.uid.value
    ensures w in SampleUids(rules, p) && (w == v || (v !in NamedUids(rules) && w !in NamedUids(rules)))
  {
    hide WithAnother, NamedUids;
    if p.uid.Some? {
      w := v;
    } else {
      w := AnotherStandsFor(NamedUids(rules), v);
    }
  }

  lemma SampleDigest(rules: seq<Rule>, p: Process, v: string) returns (w: string)
    requires p.sha256.Some? ==> v == p.sha256.value
    ensures w in SampleDigests(rules, p) && (w == v || (v !in NamedDigests(rules) && w !in NamedDigests(rules)))
  {
    hide WithAnother, NamedDigests;
    if p.sha256.Some? {
      w := v;
    } else {
      w := AnotherStandsFor(NamedDigests(rules), v);
    }
  }

  /** Whatever a process turns out to be, no rule tells it from some sample. */
  lemma SampleFor(rules: seq<Rule>, p: Process, q: Process) returns (sample: Process)
    requires Completes(p, q)
    ensures sample in Samples(rules, p) && Completes(p, sample) && Alike(rules, q, sample)
  {
    hide SampleExes, SampleUids, SampleDigests, NamedExes, NamedUids, NamedDigests;
    var exe := SampleExe(rules, p, q.exe);
    var uid := SampleUid(rules, p, q.uid.value);
    var digest := SampleDigest(rules, p, q.sha256.value);
    sample := Process(exe, Some(uid), Some(digest));
    SamplesComplete(rules, p, sample);
  }

  lemma AlikeMatch(rules: seq<Rule>, r: Rule, p: Process, q: Process)
    requires FullyKnown(p) && FullyKnown(q) && Alike(rules, p, q) && r in rules
    ensures MatchesProcess(r.scope, p) <==> MatchesProcess(r.scope, q)
    ensures !UndecidableFor(r.scope, p) && !UndecidableFor(r.scope, q)
  {
    assert r.scope.exePath.Some? ==> r.scope.exePath.value in NamedExes(rules);
    assert r.scope.uid.Some? ==> r.scope.uid.value in NamedUids(rules);
    assert r.scope.exeSha256.Some? ==> r.scope.exeSha256.value in NamedDigests(rules);
  }

  lemma AlikeCandidates(rules: seq<Rule>, c: Connection, p: Process, q: Process, now: int)
    requires FullyKnown(p) && FullyKnown(q) && Alike(rules, p, q)
    ensures Candidates(rules, c, p, now) == Candidates(rules, c, q, now)
  {
    hide Alike, MatchesProcess, UndecidableFor;
    forall i | 0 <= i < |rules| ensures StatusOf(rules[i], c, p, now) == StatusOf(rules[i], c, q, now) {
      AlikeMatch(rules, rules[i], p, q);
    }
  }

  /** All processes `p` can turn out to be are answered alike exactly when the finitely many samples are. */
  lemma SamplesDecide(rules: seq<Rule>, c: Connection, p: Process, now: int, outcome: Outcome)
    ensures IdentitiesAgree(rules, c, p, now, outcome)
            <==> forall q | q in Samples(rules, p) :: OutcomeOf(Candidates(rules, c, q, now)) == outcome
  {
    hide Samples, Alike, OutcomeOf;
    forall q | q in Samples(rules, p) ensures Completes(p, q) {
      SamplesComplete(rules, p, q);
    }
    if forall q | q in Samples(rules, p) :: OutcomeOf(Candidates(rules, c, q, now)) == outcome {
      forall q | Completes(p, q) ensures OutcomeOf(Candidates(rules, c, q, now)) == outcome {
        var sample := SampleFor(rules, p, q);
        AlikeCandidates(rules, c, q, sample, now);
      }
    }
  }

  // ---- Against the lookup --------------------------------------------------------------------

  ghost predicate WithoutHosts(rules: seq<Rule>) {
    forall r | r in rules :: r.scope.dstHost.None?
  }

  lemma CompletionsResolve(rules: seq<Rule>, c: Connection, p: Process, q: Process, now: int)
    requires WithoutHosts(rules) && Completes(p, q)
    ensures Resolves(Candidates(rules, c, p, now), Candidates(rules, c, q, now))
  {
    CandidatesRefine(rules, c, p, q, now);
  }

  /** What a lookup answers is what every process `p` can turn out to be gets. */
  lemma AnswersHoldForEveryIdentity(rules: seq<Rule>, c: Connection, p: Process, now: int, m: Match)
    requires WithoutHosts(rules) && LooksUp(rules, c, p, now, m)
    ensures m.Answer? ==> IdentitiesAgree(rules, c, p, now, ClassOf(Some(m.rule)))
    ensures m.NoMatch? ==> IdentitiesAgree(rules, c, p, now, Unmatched)
  {
    hide LooksUp, OutcomeOf, Resolves;
    forall q | Completes(p, q)
      ensures m.Answer? ==> OutcomeOf(Candidates(rules, c, q, now)) == ClassOf(Some(m.rule))
      ensures m.NoMatch? ==> OutcomeOf(Candidates(rules, c, q, now)) == Unmatched
    {
      CompletionsResolve(rules, c, p, q, now);
      LookupIsSound(rules, c, p, now, m, Candidates(rules, c, q, now));
    }
  }

  function PortRule(id: RuleId, action: Action, exe: Option<string>, uid: Option<u32>): Rule {
    Rule(id, "", true, action, Always,
         RuleScope(None, exe, None, None, uid, None, None, Some(443), None, None, None), 0, 0)
  }

  function Flow443(): Connection {
    Connection(Tcp, Outbound, V4([0, 0, 0, 0]), 0, V4([0, 0, 0, 0]), 443)
  }

  /** A Deny for one user of a program, an Allow for the program, and a Deny for all. */
  function UserDenies(): seq<Rule> {
    [PortRule(1, Deny, Some("/a"), Some(0)), PortRule(2, Allow, Some("/a"), None), PortRule(3, Deny, None, None)]
  }

  lemma UserDeniesAreSorted()
    ensures Sorted(UserDenies()) && UniqueIds(UserDenies()) && WithoutHosts(UserDenies())
  {
    var rules := UserDenies();
    assert Specificity(rules[0].scope) == 3;
    assert Specificity(rules[1].scope) == 2;
    assert Specificity(rules[2].scope) == 1;
    DescendingIsSorted(rules[0], rules[1], rules[2]);
  }

  lemma DescendingIsSorted(a: Rule, b: Rule, c: Rule)
    requires Specificity(a.scope) > Specificity(b.scope) > Specificity(c.scope)
    ensures Sorted([a, b, c])
  {
    hide Specificity, ActionRank;
  }

  lemma UserDeniesFor(p: Process)
    requires p.uid == Some(0)
    ensures var rules := UserDenies();
            var s := if !p.ExeIsKnown() then Maybe else if p.exe == "/a" then Yes else No;
            Candidates(rules, Flow443(), p, 0)
            == [Candidate(rules[0], s), Candidate(rules[1], s), Candidate(rules[2], Yes)]
  {
    var rules := UserDenies();
    var s := if !p.ExeIsKnown() then Maybe else if p.exe == "/a" then Yes else No;
    assert StatusOf(rules[0], Flow443(), p, 0) == s;
    assert StatusOf(rules[1], Flow443(), p, 0) == s;
    assert StatusOf(rules[2], Flow443(), p, 0) == Yes;
  }

  /**
   * The converse fails: a lookup can abstain although every identity is refused, and not because
   * the program rules settle on it. Here the second rule alone could allow, but whoever it matches
   * the first matches too.
   */
  lemma AbstentionOverIdentities()
    ensures var rules, p := UserDenies(), Process(UNKNOWN_EXE, Some(0), None);
            && Sorted(rules) && UniqueIds(rules) && WithoutHosts(rules)
            && (forall m | LooksUp(rules, Flow443(), p, 0, m) :: m.Undecidable?)
            && IdentitiesAgree(rules, Flow443(), p, 0, Refused)
            && !Forbids(VisitPrograms(Candidates(rules, Flow443(), p, 0)))
  {
    hide Candidates, StatusOf, Visit, VisitPrograms, Sorted, UniqueIds, WithoutHosts, OutcomeOf, Flow443;
    var rules, p := UserDenies(), Process(UNKNOWN_EXE, Some(0), None);
    UserDeniesAreSorted();
    UserDeniesFor(p);
    ThreeVisits(rules[0], rules[1], rules[2], Maybe, Maybe);
    assert rules[1] in [rules[0], rules[1]] && !Refuses(rules[1]);
    forall q | Completes(p, q) ensures OutcomeOf(Candidates(rules, Flow443(), q, 0)) == Refused {
      EveryUserIsRefused(q);
    }
  }

  lemma EveryUserIsRefused(q: Process)
    requires FullyKnown(q) && q.uid == Some(0)
    ensures OutcomeOf(Candidates(UserDenies(), Flow443(), q, 0)) == Refused
  {
    hide Candidates, StatusOf, Visit, VisitPrograms, Flow443;
    var rules := UserDenies();
    var s := if q.exe == "/a" then Yes else No;
    UserDeniesFor(q);
    ThreeVisits(rules[0], rules[1], rules[2], s, s);
    DecidedWalk(Candidates(rules, Flow443(), q, 0));
  }

  lemma ThreeVisits(a: Rule, b: Rule, d: Rule, s: Status, t: Status)
    requires IsProgramRefusal(a) && !IsGenericAllow(b) && NamesProgram(b.scope) && Refuses(d) && !NamesProgram(d.scope)
    ensures var cs := [Candidate(a, s), Candidate(b, t), Candidate(d, Yes)];
            && (s.Maybe? && t.Maybe? ==>
                  Visit(cs) == Walk(Some(d), [a, b]) && VisitPrograms(cs) == Walk(None, [a, b]))
            && (s.Yes? ==> Visit(cs) == Walk(Some(a), []))
            && (s.No? && t.No? ==> Visit(cs) == Walk(Some(d), []))
  {
    var cs := [Candidate(a, s), Candidate(b, t), Candidate(d, Yes)];
    assert cs[1..] == [Candidate(b, t), Candidate(d, Yes)];
    assert cs[1..][1..] == [Candidate(d, Yes)];
    assert cs[1..][1..][1..] == [];
    assert Visit(cs[1..][1..]) == Walk(Some(d), []);
    assert VisitPrograms(cs[1..][1..]) == Walk(None, []) by {
      assert VisitPrograms([]) == Walk(None, []);
    }
  }
}
