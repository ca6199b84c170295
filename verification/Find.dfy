/** Unified image search: gather, extract, merge, sort by license, validate. */
module Find {
  import opened Domain
  import opened Listings
  import opened Dedup
  import opened LicenseRules
  import opened Assessment
  import opened Gather
  import opened Sieve
  import opened Pipeline
  import opened PipelineTheorems
  import opened PipelineSequential
  import opened PipelineOrder
  import opened Validation

  const FIND_DEFAULT_MAX_RESULTS := 3

  datatype Request = Request(query: string, pageURL: string, external: seq<Lead>, maxResults: int)

  /** Configured providers by name, what each answers, and what content extraction from the page finds. */
  datatype Sources = Sources(names: seq<string>, replies: seq<Reply>, content: seq<Lead>)

  /** The configuration, what the outside world answers for each list entry, and whether events are reported. */
  datatype Setting = Setting(env: Env, cfg: Config, world: Lead -> Observation, callback: bool)

  function Limit(req: Request): int {
    if req.maxResults <= 0 then FIND_DEFAULT_MAX_RESULTS else req.maxResults
  }

  /** The merged candidate list when the providers finish in the given order. */
  function Merged(req: Request, src: Sources, order: seq<nat>): seq<Lead>
    requires InRange(order, |src.replies|)
  {
    (if req.query != "" then Gathered(src.replies, order) else []) +
    (if req.pageURL != "" && "content" !in src.names && "og" !in src.names then src.content else []) +
    req.external
  }

  ghost function FactsIn(setting: Setting, lead: Lead): Facts {
    FactsOf(setting.env, setting.cfg, lead.candidate, setting.world(lead))
  }

  /** The validation job over a candidate list. */
  ghost function JobOf(cs: seq<Lead>, setting: Setting, maxResults: int): Job {
    Job(seq(|cs|, k requires 0 <= k < |cs| => FactsIn(setting, cs[k])), maxResults, setting.callback)
  }

  function Pick(cs: seq<Lead>, positions: seq<nat>): seq<Lead>
    requires InRange(positions, |cs|)
  {
    seq(|positions|, k requires 0 <= k < |positions| => cs[positions[k]])
  }

  /** The result of validating `sorted` along one interleaving. */
  ghost predicate Validates(sorted: seq<Lead>, job: Job, schedule: seq<Action>, result: seq<Lead>) {
    && IsCompleteRun(job, schedule)
    && InRange(Exec(job, schedule).validated, |sorted|)
    && result == Pick(sorted, Exec(job, schedule).validated)
  }

  /** One way in which a call can go: completion order of the providers and interleaving of the validation. */
  ghost predicate Yields(req: Request, src: Sources, setting: Setting,
                         order: seq<nat>, schedule: seq<Action>, result: seq<Lead>)
  {
    IsOrder(|src.replies|, order) &&
    var sorted := SafeFirst(Merged(req, src, order));
    Validates(sorted, JobOf(sorted, setting, Limit(req)), schedule, result)
  }

  ghost predicate CanFind(req: Request, src: Sources, setting: Setting, result: seq<Lead>) {
    exists order, schedule :: Yields(req, src, setting, order, schedule, result)
  }

  // ---- The call itself

  method FindImages(req: Request, src: Sources, setting: Setting,
                    order: seq<nat>, wish: nat -> nat, answered: nat -> bool)
    returns (result: seq<Lead>)
    requires IsOrder(|src.replies|, order)
    ensures exists schedule :: Yields(req, src, setting, order, schedule, result)
  {
    var maxResults := req.maxResults;
    if maxResults <= 0 {
      maxResults := FIND_DEFAULT_MAX_RESULTS;
    }
    var candidates: seq<Lead> := [];
    if req.query != "" {
      candidates := candidates + Gathered(src.replies, order);
    }
    if req.pageURL != "" && "content" !in src.names && "og" !in src.names {
      candidates := candidates + src.content;
    }
    candidates := candidates + req.external;
    assert candidates == Merged(req, src, order);
    assert SafeFirst([]) == [];
    if |candidates| == 0 {
      ghost var none := NothingYieldsNothing(setting, maxResults);
      assert Yields(req, src, setting, order, none, []);
      return [];
    }
    var a := new Lead[|candidates|](k requires 0 <= k < |candidates| => candidates[k]);
    assert a[..] == candidates;
    SortByLicense(a);
    var sorted := a[..];
    result := Validate(sorted, setting, maxResults, wish, answered);
    ghost var schedule :| Validates(sorted, JobOf(sorted, setting, maxResults), schedule, result);
    assert Yields(req, src, setting, order, schedule, result);
  }

  lemma RunInRange(job: Job, schedule: seq<Action>)
    requires IsRun(job, schedule)
    ensures InRange(Exec(job, schedule).validated, |job.facts|)
    ensures Distinct(Exec(job, schedule).validated)
    ensures |Exec(job, schedule).validated| <= Max(0, job.maxResults)
  {
    RunKeepable(job, schedule);
  }

  /** The license logic runs on every entry, then the pipeline under the given scheduler. */
  method Validate(sorted: seq<Lead>, setting: Setting, maxResults: int, wish: nat -> nat, answered: nat -> bool)
    returns (result: seq<Lead>)
    ensures exists schedule :: Validates(sorted, JobOf(sorted, setting, maxResults), schedule, result)
  {
    var facts := ExamineAll(sorted, setting);
    var job := Job(facts, maxResults, setting.callback);
    assert job == JobOf(sorted, setting, maxResults);
    var validated := ValidateCandidates(job, wish, answered);
    ghost var schedule :| IsCompleteRun(job, schedule) && validated == Exec(job, schedule).validated;
    RunInRange(job, schedule);
    result := Pick(sorted, validated);
    assert Validates(sorted, job, schedule, result);
  }

  method ExamineAll(cs: seq<Lead>, setting: Setting) returns (facts: seq<Facts>)
    ensures |facts| == |cs| && forall k | 0 <= k < |cs| :: facts[k] == FactsIn(setting, cs[k])
  {
    facts := [];
    for k := 0 to |cs|
      invariant |facts| == k && forall m | 0 <= m < k :: facts[m] == FactsIn(setting, cs[m])
    {
      var f := Examine(setting.env, setting.cfg, cs[k].candidate, setting.world(cs[k]));
      facts := facts + [f];
    }
  }

  lemma EmptyRange(positions: seq<nat>)
    ensures InRange(positions, 0) ==> positions == []
  {
    if positions != [] {
      assert !(positions[0] < 0);
    }
  }

  lemma NothingYieldsNothing(setting: Setting, maxResults: int) returns (schedule: seq<Action>)
    ensures Validates([], JobOf([], setting, maxResults), schedule, [])
  {
    var job := JobOf([], setting, maxResults);
    schedule := CanFinish(job, []);
    RunInRange(job, schedule);
    EmptyRange(Exec(job, schedule).validated);
    assert Pick([], []) == [];
  }

  // ---- Permutations of a candidate list

  function Singles(cs: seq<Lead>): seq<Reply> {
    seq(|cs|, k requires 0 <= k < |cs| => Found([cs[k]]))
  }

  lemma PickConcat(cs: seq<Lead>, q: seq<nat>, more: seq<nat>)
    requires InRange(q, |cs|) && InRange(more, |cs|)
    ensures InRange(q + more, |cs|) && Pick(cs, q + more) == Pick(cs, q) + Pick(cs, more)
  {
  }

  lemma {:induction false} PickIsGathered(cs: seq<Lead>, q: seq<nat>)
    requires InRange(q, |cs|)
    ensures Pick(cs, q) == Gathered(Singles(cs), q)
  {
    if q != [] {
      var front, last := q[..|q| - 1], q[|q| - 1];
      PickIsGathered(cs, front);
      PickConcat(cs, front, [last]);
      assert q == front + [last];
      assert Pick(cs, [last]) == [cs[last]];
    }
  }

  /** Picking every position once permutes the list. */
  lemma PickOrder(cs: seq<Lead>, q: seq<nat>)
    requires IsOrder(|cs|, q)
    ensures multiset(Pick(cs, q)) == multiset(cs)
  {
    UptoIsOrder(|cs|);
    MultisetIgnoresOrder(Singles(cs), q, Upto(|cs|));
    PickIsGathered(cs, q);
    PickIsGathered(cs, Upto(|cs|));
    assert Pick(cs, Upto(|cs|)) == cs;
  }

  lemma PickSplits(cs: seq<Lead>, q: seq<nat>) returns (rest: seq<nat>)
    requires InRange(q, |cs|) && Distinct(q)
    ensures IsOrder(|cs|, q + rest) && InRange(rest, |cs|) && forall r | r in rest :: r !in q
    ensures multiset(Pick(cs, q)) + multiset(Pick(cs, rest)) == multiset(cs)
  {
    rest := Complete(|cs|, q);
    PickOrder(cs, q + rest);
    PickConcat(cs, q, rest);
  }

  lemma Cancel(a: multiset<Lead>, b: multiset<Lead>, c: multiset<Lead>)
    requires a + b == a + c
    ensures b == c
  {
    assert b == (a + b) - a && c == (a + c) - a;
  }

  /** The position at which the next entry of a permutation is still to be found. */
  lemma FindNext(cs: seq<Lead>, p: seq<Lead>, q: seq<nat>) returns (k: nat)
    requires multiset(p) == multiset(cs) && InRange(q, |cs|) && Distinct(q)
    requires |q| < |p| && Pick(cs, q) == p[..|q|]
    ensures k < |cs| && k !in q && cs[k] == p[|q|]
  {
    var m := |q|;
    var rest := PickSplits(cs, q);
    assert p == p[..m] + p[m..];
    Cancel(multiset(p[..m]), multiset(Pick(cs, rest)), multiset(p[m..]));
    assert p[m] == p[m..][0];
    assert p[m] in multiset(Pick(cs, rest));
    var x :| 0 <= x < |rest| && Pick(cs, rest)[x] == p[m];
    k := rest[x];
    assert k in rest;
  }

  lemma {:induction false} ArrangePrefix(cs: seq<Lead>, p: seq<Lead>, m: nat) returns (q: seq<nat>)
    requires multiset(p) == multiset(cs) && m <= |p|
    ensures InRange(q, |cs|) && Distinct(q) && |q| == m && Pick(cs, q) == p[..m]
  {
    if m == 0 {
      q := [];
    } else {
      var front := ArrangePrefix(cs, p, m - 1);
      var k := FindNext(cs, p, front);
      q := front + [k];
      PickConcat(cs, front, [k]);
      assert Pick(cs, [k]) == [p[m - 1]];
      assert p[..m] == p[..m - 1] + [p[m - 1]];
    }
  }

  /** A permutation of a list is the list read in some order of its positions. */
  lemma Arrange(cs: seq<Lead>, p: seq<Lead>) returns (q: seq<nat>)
    requires multiset(p) == multiset(cs)
    ensures IsOrder(|cs|, q) && |q| == |p| && Pick(cs, q) == p
  {
    q := ArrangePrefix(cs, p, |p|);
    assert p[..|p|] == p;
    var rest := PickSplits(cs, q);
    SameSize(p, cs);
    SameSizes(Pick(cs, q), Pick(cs, rest), cs);
    assert q + rest == q;
  }

  lemma SameSize(a: seq<Lead>, b: seq<Lead>)
    requires multiset(a) == multiset(b)
    ensures |a| == |b|
  {
    assert |a| == |multiset(a)| && |b| == |multiset(b)|;
  }

  lemma SameSizes(a: seq<Lead>, b: seq<Lead>, c: seq<Lead>)
    requires multiset(a) + multiset(b) == multiset(c)
    ensures |a| + |b| == |c|
  {
    assert multiset(a + b) == multiset(c);
    SameSize(a + b, c);
  }

  lemma PickIsPart(cs: seq<Lead>, q: seq<nat>)
    requires InRange(q, |cs|) && Distinct(q)
    ensures multiset(Pick(cs, q)) <= multiset(cs)
  {
    var rest := PickSplits(cs, q);
  }

  lemma MergedIgnoresOrder(req: Request, src: Sources, order: seq<nat>, order': seq<nat>)
    requires IsOrder(|src.replies|, order) && IsOrder(|src.replies|, order')
    ensures multiset(SafeFirst(Merged(req, src, order))) == multiset(SafeFirst(Merged(req, src, order')))
    ensures multiset(SafeFirst(Merged(req, src, order))) == multiset(Merged(req, src, order'))
  {
    MultisetIgnoresOrder(src.replies, order, order');
    OfIsMultiset(Merged(req, src, order));
    OfIsMultiset(Merged(req, src, order'));
  }

  // ---- What every call guarantees

  lemma ResultPassed(sorted: seq<Lead>, setting: Setting, maxResults: int,
                     schedule: seq<Action>, result: seq<Lead>, k: nat)
    requires Validates(sorted, JobOf(sorted, setting, maxResults), schedule, result) && k < |result|
    ensures Clean(setting.env, setting.cfg, result[k].candidate, setting.world(result[k]))
  {
    var job := JobOf(sorted, setting, maxResults);
    var positions := Exec(job, schedule).validated;
    SafetyInEveryState(job, schedule);
    assert positions[k] in positions;
    PassedIsClean(setting.env, setting.cfg, result[k].candidate, setting.world(result[k]));
  }

  ghost predicate FarApart(setting: Setting, x: Lead, y: Lead) {
    var h, g := setting.world(x).hash, setting.world(y).hash;
    h.Some? && g.Some? ==> Distance(h.value, g.value) >= 10
  }

  lemma ResultsApart(sorted: seq<Lead>, setting: Setting, maxResults: int,
                     schedule: seq<Action>, result: seq<Lead>, a: nat, b: nat)
    requires Validates(sorted, JobOf(sorted, setting, maxResults), schedule, result) && a < b < |result|
    ensures FarApart(setting, result[a], result[b])
  {
    var job := JobOf(sorted, setting, maxResults);
    var positions := Exec(job, schedule).validated;
    RunInRange(job, schedule);
    ResultsAreFarApart(job, schedule);
    var i, j := positions[a], positions[b];
    assert i in positions && j in positions && i != j;
    assert job.facts[i].hash == setting.world(result[a]).hash;
    assert job.facts[j].hash == setting.world(result[b]).hash;
  }

  /**
   * Whatever the providers' order and the interleaving: at most the limit, only candidates of the
   * merged list (each at most as often as it occurs there), none with any blocking evidence, and
   * any two that were hashed far apart.
   */
  lemma FindIsSafe(req: Request, src: Sources, setting: Setting,
                   order: seq<nat>, schedule: seq<Action>, result: seq<Lead>, order': seq<nat>)
    requires Yields(req, src, setting, order, schedule, result)
    requires IsOrder(|src.replies|, order')
    ensures |result| <= Limit(req)
    ensures multiset(result) <= multiset(Merged(req, src, order'))
    ensures forall c | c in result :: Clean(setting.env, setting.cfg, c.candidate, setting.world(c))
    ensures forall a, b | 0 <= a < b < |result| :: FarApart(setting, result[a], result[b])
  {
    var sorted := SafeFirst(Merged(req, src, order));
    var job := JobOf(sorted, setting, Limit(req));
    RunInRange(job, schedule);
    PickIsPart(sorted, Exec(job, schedule).validated);
    MergedIgnoresOrder(req, src, order, order');
    forall k | 0 <= k < |result|
      ensures Clean(setting.env, setting.cfg, result[k].candidate, setting.world(result[k]))
    {
      ResultPassed(sorted, setting, Limit(req), schedule, result, k);
    }
    forall a, b | 0 <= a < b < |result|
      ensures FarApart(setting, result[a], result[b])
    {
      ResultsApart(sorted, setting, Limit(req), schedule, result, a, b);
    }
  }

  // ---- What a call looks at, and what it must return

  /** The entry is on offer: given by the caller, found by a provider for a query, or extracted from the page. */
  ghost predicate OnOffer(req: Request, src: Sources, lead: Lead) {
    || lead in req.external
    || (req.query != "" && exists k :: 0 <= k < |src.replies| && src.replies[k].Found? && lead in src.replies[k].items)
    || (req.pageURL != "" && "content" !in src.names && "og" !in src.names && lead in src.content)
  }

  lemma {:induction false} GatheredMembers(replies: seq<Reply>, order: seq<nat>, lead: Lead)
    requires InRange(order, |replies|)
    ensures lead in Gathered(replies, order) <==>
            exists k :: k in order && k < |replies| && replies[k].Found? && lead in replies[k].items
  {
    if order != [] {
      var front, last := order[..|order| - 1], order[|order| - 1];
      assert order == front + [last];
      GatheredMembers(replies, front, lead);
    }
  }

  lemma MergedMembers(req: Request, src: Sources, order: seq<nat>, lead: Lead)
    requires IsOrder(|src.replies|, order)
    ensures lead in Merged(req, src, order) <==> OnOffer(req, src, lead)
  {
    GatheredMembers(src.replies, order, lead);
    if req.query != "" && lead in Gathered(src.replies, order) {
      var k :| k in order && k < |src.replies| && src.replies[k].Found? && lead in src.replies[k].items;
      assert 0 <= k;
    }
  }

  lemma SortedMembers(req: Request, src: Sources, order: seq<nat>, lead: Lead)
    requires IsOrder(|src.replies|, order)
    ensures lead in SafeFirst(Merged(req, src, order)) <==> OnOffer(req, src, lead)
  {
    var cs := Merged(req, src, order);
    OfIsMultiset(cs);
    MergedMembers(req, src, order, lead);
    assert lead in SafeFirst(cs) <==> lead in multiset(SafeFirst(cs));
    assert lead in cs <==> lead in multiset(cs);
  }

  /** Another entry on offer has a hash that differs in at most nine bits. */
  ghost predicate LookAlikeOnOffer(req: Request, src: Sources, setting: Setting, lead: Lead, other: Lead) {
    var h, g := setting.world(lead).hash, setting.world(other).hash;
    OnOffer(req, src, other) && other != lead && h.Some? && g.Some? && Distance(h.value, g.value) <= 9
  }

  /** Below the limit, an acceptable position is returned or has a stored look-alike with other facts or other data. */
  lemma MissingHasLookAlike(sorted: seq<Lead>, setting: Setting, limit: int, s: State, i: nat) returns (j: nat)
    requires AtEnd(JobOf(sorted, setting, limit), s) && |s.validated| < limit && i < |sorted|
    requires Acceptable(FactsIn(setting, sorted[i])) && forall v | v in s.validated :: v < |sorted| && sorted[v] != sorted[i]
    ensures j < |sorted| && sorted[j] != sorted[i]
    ensures
      var h, g := setting.world(sorted[i]).hash, setting.world(sorted[j]).hash;
      h.Some? && g.Some? && Distance(h.value, g.value) <= 9
  {
    var job := JobOf(sorted, setting, limit);
    assert job.facts[i] == FactsIn(setting, sorted[i]);
    MissingIsSuppressed(job, s, i);
    var kept := Owners(s.stored);
    j :| j in kept && j < |Items(job)| && Clash(Items(job)[i], Items(job)[j]);
    assert job.facts[j] == FactsIn(setting, sorted[j]);
    if sorted[j] == sorted[i] {
      MissingIsSuppressed(job, s, j);
      assert false;
    }
  }

  /**
   * Nothing on offer is lost: a call that returns fewer than asked for (three, if nothing sensible was
   * asked for) returns every clean entry on offer, unless another entry on offer looks like it.
   */
  lemma FindIsComplete(req: Request, src: Sources, setting: Setting,
                       order: seq<nat>, schedule: seq<Action>, result: seq<Lead>, lead: Lead)
    requires Yields(req, src, setting, order, schedule, result)
    requires |result| < if req.maxResults <= 0 then 3 else req.maxResults
    requires OnOffer(req, src, lead) && Clean(setting.env, setting.cfg, lead.candidate, setting.world(lead))
    ensures lead in result || exists other :: LookAlikeOnOffer(req, src, setting, lead, other)
  {
    if lead !in result {
      var sorted := SafeFirst(Merged(req, src, order));
      var job := JobOf(sorted, setting, Limit(req));
      SortedMembers(req, src, order, lead);
      var i :| 0 <= i < |sorted| && sorted[i] == lead;
      PassedIsClean(setting.env, setting.cfg, lead.candidate, setting.world(lead));
      AcceptableExactly(FactsIn(setting, lead));
      RunAtEnd(job, schedule);
      NotPicked(sorted, Exec(job, schedule).validated, lead);
      var j := MissingHasLookAlike(sorted, setting, Limit(req), Exec(job, schedule), i);
      SortedMembers(req, src, order, sorted[j]);
      assert LookAlikeOnOffer(req, src, setting, lead, sorted[j]);
    }
  }

  lemma NotPicked(cs: seq<Lead>, positions: seq<nat>, lead: Lead)
    requires InRange(positions, |cs|) && lead !in Pick(cs, positions)
    ensures forall v | v in positions :: v < |cs| && cs[v] != lead
  {
    forall v | v in positions
      ensures v < |cs| && cs[v] != lead
    {
      var k :| 0 <= k < |positions| && positions[k] == v;
      assert Pick(cs, positions)[k] == cs[v];
    }
  }

  /** Nothing else is returned: every result is on offer, and there are no more than asked for. */
  lemma FindOnlyOnOffer(req: Request, src: Sources, setting: Setting,
                        order: seq<nat>, schedule: seq<Action>, result: seq<Lead>)
    requires Yields(req, src, setting, order, schedule, result)
    ensures |result| <= if req.maxResults <= 0 then 3 else req.maxResults
    ensures forall c | c in result :: OnOffer(req, src, c)
  {
    FindIsSafe(req, src, setting, order, schedule, result, order);
    forall c | c in result
      ensures OnOffer(req, src, c)
    {
      assert c in multiset(result) && c in multiset(Merged(req, src, order));
      MergedMembers(req, src, order, c);
    }
  }

  // ---- A call against filtering the merged list sequentially

  /** What filtering the list one entry after the other keeps. */
  ghost function Sequential(setting: Setting, limit: int, p: seq<Lead>): seq<Lead> {
    Pick(p, Kept(Items(JobOf(p, setting, limit)), limit))
  }

  /** Filtering `cs` in order `q` is filtering the permuted list. */
  lemma SequentialOf(setting: Setting, limit: int, cs: seq<Lead>, q: seq<nat>)
    requires IsOrder(|cs|, q)
    ensures Sequential(setting, limit, Pick(cs, q)) == Pick(cs, Filtered(Items(JobOf(cs, setting, limit)), limit, q))
  {
    var items, p := Items(JobOf(cs, setting, limit)), Pick(cs, q);
    assert Items(JobOf(p, setting, limit)) == Permuted(items, q);
    FilteredIsKept(items, limit, q);
    PickThrough(cs, q, Kept(Permuted(items, q), limit));
  }

  lemma PickThrough(cs: seq<Lead>, q: seq<nat>, xs: seq<nat>)
    requires InRange(q, |cs|) && InRange(xs, |q|)
    ensures InRange(Through(q, xs), |cs|) && Pick(cs, Through(q, xs)) == Pick(Pick(cs, q), xs)
  {
  }

  lemma YieldIsSequential(req: Request, src: Sources, setting: Setting,
                          order: seq<nat>, schedule: seq<Action>, result: seq<Lead>, order': seq<nat>)
    returns (p: seq<Lead>)
    requires Yields(req, src, setting, order, schedule, result) && IsOrder(|src.replies|, order')
    ensures multiset(p) == multiset(Merged(req, src, order')) && Sequential(setting, Limit(req), p) == result
  {
    var sorted := SafeFirst(Merged(req, src, order));
    var q := RunIsSequential(JobOf(sorted, setting, Limit(req)), schedule);
    p := Pick(sorted, q);
    PickOrder(sorted, q);
    MergedIgnoresOrder(req, src, order, order');
    SequentialOf(setting, Limit(req), sorted, q);
  }

  lemma SequentialIsYielded(req: Request, src: Sources, setting: Setting, order: seq<nat>, p: seq<Lead>)
    requires IsOrder(|src.replies|, order) && multiset(p) == multiset(Merged(req, src, order))
    ensures CanFind(req, src, setting, Sequential(setting, Limit(req), p))
  {
    var sorted := SafeFirst(Merged(req, src, order));
    MergedIgnoresOrder(req, src, order, order);
    var q := Arrange(sorted, p);
    var job := JobOf(sorted, setting, Limit(req));
    var schedule := SequentialRuns(job, q);
    SequentialOf(setting, Limit(req), sorted, q);
    assert Yields(req, src, setting, order, schedule, Sequential(setting, Limit(req), p));
  }

  /**
   * Over all provider orders and interleavings, a call returns exactly what filtering the merged list
   * sequentially returns over all its permutations.
   */
  lemma FindIsSequential(req: Request, src: Sources, setting: Setting, result: seq<Lead>, order': seq<nat>)
    requires IsOrder(|src.replies|, order')
    ensures CanFind(req, src, setting, result) <==>
            exists p :: multiset(p) == multiset(Merged(req, src, order')) && Sequential(setting, Limit(req), p) == result
  {
    forall order, schedule | Yields(req, src, setting, order, schedule, result)
      ensures exists p :: multiset(p) == multiset(Merged(req, src, order')) && Sequential(setting, Limit(req), p) == result
    {
      var p := YieldIsSequential(req, src, setting, order, schedule, result, order');
    }
    forall p | multiset(p) == multiset(Merged(req, src, order')) && Sequential(setting, Limit(req), p) == result
      ensures CanFind(req, src, setting, result)
    {
      SequentialIsYielded(req, src, setting, order', p);
    }
  }

  ghost predicate CanFindMany(req: Request, src: Sources, setting: Setting, n: int) {
    exists result :: CanFind(req, src, setting, result) && |result| == n
  }

  ghost predicate CanKeepMany(cs: seq<Lead>, setting: Setting, limit: int, n: int) {
    exists p :: multiset(p) == multiset(cs) && |Sequential(setting, limit, p)| == n
  }

  lemma FoundIsKept(req: Request, src: Sources, setting: Setting, order': seq<nat>, n: int)
    requires IsOrder(|src.replies|, order')
    ensures CanFindMany(req, src, setting, n) <==> CanKeepMany(Merged(req, src, order'), setting, Limit(req), n)
  {
    var cs, limit := Merged(req, src, order'), Limit(req);
    forall order, schedule, result | Yields(req, src, setting, order, schedule, result) && |result| == n
      ensures CanKeepMany(cs, setting, limit, n)
    {
      var p := YieldIsSequential(req, src, setting, order, schedule, result, order');
    }
    forall p | multiset(p) == multiset(cs) && |Sequential(setting, limit, p)| == n
      ensures CanFindMany(req, src, setting, n)
    {
      SequentialIsYielded(req, src, setting, order', p);
    }
  }

  lemma KeptIsReturned(cs: seq<Lead>, setting: Setting, limit: int, n: int)
    ensures CanKeepMany(cs, setting, limit, n) <==> CanReturnMany(JobOf(cs, setting, limit), n)
  {
    var job := JobOf(cs, setting, limit);
    forall p | multiset(p) == multiset(cs) && |Sequential(setting, limit, p)| == n
      ensures CanReturnMany(job, n)
    {
      var q := Arrange(cs, p);
      SequentialOf(setting, limit, cs, q);
      var full := SequentialRuns(job, q);
    }
    forall schedule | IsCompleteRun(job, schedule) && |Exec(job, schedule).validated| == n
      ensures CanKeepMany(cs, setting, limit, n)
    {
      var q := RunIsSequential(job, schedule);
      SequentialOf(setting, limit, cs, q);
      PickOrder(cs, q);
    }
  }

  /**
   * The possible numbers of results, over all provider orders and interleavings, are the numbers of
   * survivors up to the limit over all maximal sets of entries of the merged list that do not look alike.
   */
  lemma FindSizesExactly(req: Request, src: Sources, setting: Setting, order': seq<nat>, n: int)
    requires IsOrder(|src.replies|, order')
    ensures
      var job := JobOf(Merged(req, src, order'), setting, Limit(req));
      CanFindMany(req, src, setting, n) <==> exists kept :: Maximal(Items(job), kept) && SizeWith(job, kept) == n
  {
    FoundIsKept(req, src, setting, order', n);
    KeptIsReturned(Merged(req, src, order'), setting, Limit(req), n);
    SizesExactly(JobOf(Merged(req, src, order'), setting, Limit(req)), n);
  }

  /**
   * The number of results is the same for every provider order and interleaving exactly when all those
   * maximal sets leave equally many survivors up to the limit.
   */
  lemma FindSizeFixedExactly(req: Request, src: Sources, setting: Setting, order': seq<nat>)
    requires IsOrder(|src.replies|, order')
    ensures
      var job := JobOf(Merged(req, src, order'), setting, Limit(req));
      (forall m, n | CanFindMany(req, src, setting, m) && CanFindMany(req, src, setting, n) :: m == n) <==>
      (forall a, b | Maximal(Items(job), a) && Maximal(Items(job), b) :: SizeWith(job, a) == SizeWith(job, b))
  {
    var job := JobOf(Merged(req, src, order'), setting, Limit(req));
    forall n
      ensures CanFindMany(req, src, setting, n) <==> CanReturnMany(job, n)
    {
      FoundIsKept(req, src, setting, order', n);
      KeptIsReturned(Merged(req, src, order'), setting, Limit(req), n);
    }
    SizeFixedExactly(job);
  }

  // ---- The number of results does not depend on any schedule when nothing looks alike

  ghost function Count(cs: seq<Lead>, good: Lead -> bool): nat {
    if cs == [] then 0 else Count(cs[..|cs| - 1], good) + (if good(cs[|cs| - 1]) then 1 else 0)
  }

  ghost function AcceptableIn(setting: Setting): Lead -> bool {
    lead => Acceptable(FactsIn(setting, lead))
  }

  /** No two list entries that take part in deduplication look alike. */
  ghost predicate NoLookAlikes(cs: seq<Lead>, setting: Setting) {
    forall i, j | 0 <= i < |cs| && 0 <= j < |cs| && i != j && Offers(FactsIn(setting, cs[i])) && Offers(FactsIn(setting, cs[j])) ::
      !Near(FactsIn(setting, cs[i]).hash.value, FactsIn(setting, cs[j]).hash.value)
  }

  ghost function GoodPositions(cs: seq<Lead>, good: Lead -> bool): set<nat> {
    set i: nat | i < |cs| && good(cs[i])
  }

  lemma {:induction false} CountIsCardinality(cs: seq<Lead>, good: Lead -> bool)
    ensures |GoodPositions(cs, good)| == Count(cs, good)
  {
    if cs == [] {
      assert GoodPositions(cs, good) == {};
    } else {
      var n := |cs| - 1;
      CountIsCardinality(cs[..n], good);
      var rest := GoodPositions(cs[..n], good);
      assert GoodPositions(cs, good) == if good(cs[n]) then rest + {n} else rest;
    }
  }

  lemma {:induction false} CountConcat(a: seq<Lead>, b: seq<Lead>, good: Lead -> bool)
    ensures Count(a + b, good) == Count(a, good) + Count(b, good)
  {
    if b == [] {
      assert a + b == a;
    } else {
      assert (a + b)[..|a + b| - 1] == a + b[..|b| - 1];
      CountConcat(a, b[..|b| - 1], good);
    }
  }

  lemma CountOne(x: Lead, good: Lead -> bool)
    ensures Count([x], good) == if good(x) then 1 else 0
  {
    assert [x][..0] == [];
  }

  lemma CountWithout(front: seq<Lead>, x: Lead, back: seq<Lead>, good: Lead -> bool)
    ensures Count(front + [x] + back, good) == Count(front + back, good) + (if good(x) then 1 else 0)
  {
    CountConcat(front + [x], back, good);
    CountConcat(front, [x], good);
    CountConcat(front, back, good);
    CountOne(x, good);
  }

  /** Where the last entry of a list sits in a permutation of it. */
  lemma TakeOut(a: seq<Lead>, x: Lead, b: seq<Lead>) returns (front: seq<Lead>, back: seq<Lead>)
    requires multiset(a + [x]) == multiset(b)
    ensures b == front + [x] + back && multiset(a) == multiset(front + back)
  {
    assert x in multiset(b);
    var k :| 0 <= k < |b| && b[k] == x;
    front, back := b[..k], b[k + 1..];
    assert b == front + [x] + back;
    MovedOut([], x, a);
    MovedOut(front, x, back);
    assert [] + [x] + a == [x] + a && [] + a == a;
    assert multiset([x] + a) == multiset(a + [x]);
    Cancel(multiset{x}, multiset(a), multiset(front + back));
  }

  lemma MovedOut(front: seq<Lead>, x: Lead, back: seq<Lead>)
    ensures multiset(front + [x] + back) == multiset{x} + multiset(front + back)
  {
  }

  lemma {:induction false} CountIgnoresOrder(a: seq<Lead>, b: seq<Lead>, good: Lead -> bool)
    requires multiset(a) == multiset(b)
    ensures Count(a, good) == Count(b, good)
  {
    if a == [] {
      SameSize(a, b);
    } else {
      var rest, x := a[..|a| - 1], a[|a| - 1];
      assert a == rest + [x];
      var front, back := TakeOut(rest, x, b);
      CountIgnoresOrder(rest, front + back, good);
      CountWithout(front, x, back, good);
    }
  }

  /** Two list entries of a permutation are two entries of the original. */
  lemma TwoOriginals(a: seq<Lead>, b: seq<Lead>, i: nat, j: nat) returns (i': nat, j': nat)
    requires multiset(a) == multiset(b) && i < |b| && j < |b| && i != j
    ensures i' < |a| && j' < |a| && i' != j' && a[i'] == b[i] && a[j'] == b[j]
  {
    var q := Arrange(a, b);
    i', j' := q[i], q[j];
    assert Pick(a, q)[i] == a[i'] && Pick(a, q)[j] == a[j'];
  }

  lemma LookAlikesIgnoreOrder(a: seq<Lead>, b: seq<Lead>, setting: Setting)
    requires multiset(a) == multiset(b) && NoLookAlikes(a, setting)
    ensures NoLookAlikes(b, setting)
  {
    forall i, j | 0 <= i < |b| && 0 <= j < |b| && i != j && Offers(FactsIn(setting, b[i])) && Offers(FactsIn(setting, b[j]))
      ensures !Near(FactsIn(setting, b[i]).hash.value, FactsIn(setting, b[j]).hash.value)
    {
      var i', j' := TwoOriginals(a, b, i, j);
    }
  }

  /** One number describes every possible call: neither provider order nor interleaving changes how many results come back. */
  lemma FindSizeIsFixed(req: Request, src: Sources, setting: Setting,
                        order: seq<nat>, schedule: seq<Action>, result: seq<Lead>, order': seq<nat>)
    requires Yields(req, src, setting, order, schedule, result)
    requires IsOrder(|src.replies|, order')
    requires NoLookAlikes(Merged(req, src, order'), setting)
    ensures |result| == Min(Limit(req), Count(Merged(req, src, order'), AcceptableIn(setting)))
  {
    var sorted := SafeFirst(Merged(req, src, order));
    var job := JobOf(sorted, setting, Limit(req));
    MergedIgnoresOrder(req, src, order, order');
    LookAlikesIgnoreOrder(Merged(req, src, order'), sorted, setting);
    assert HashesApart(job);
    SizeIgnoresSchedule(job, schedule);
    assert AcceptablePositions(job) == GoodPositions(sorted, AcceptableIn(setting));
    CountIsCardinality(sorted, AcceptableIn(setting));
    CountIgnoresOrder(sorted, Merged(req, src, order'), AcceptableIn(setting));
  }

  // ---- The documented order of results

  function RankAt(cs: seq<Lead>): nat -> nat {
    (k: nat) => if k < |cs| then cs[k].candidate.license.Rank() else 0
  }

  /** Entries that one call can return together have the same license. */
  ghost predicate LicensesAgree(cs: seq<Lead>, setting: Setting, limit: int) {
    forall i: nat, j: nat | i < |cs| && j < |cs| && i != j && Compatible(JobOf(cs, setting, limit), i, j) ::
      cs[i].candidate.license == cs[j].candidate.license
  }

  lemma AgreementIgnoresOrder(a: seq<Lead>, b: seq<Lead>, setting: Setting, limit: int)
    requires multiset(a) == multiset(b) && LicensesAgree(a, setting, limit)
    ensures LicensesAgree(b, setting, limit)
  {
    forall i: nat, j: nat | i < |b| && j < |b| && i != j && Compatible(JobOf(b, setting, limit), i, j)
      ensures b[i].candidate.license == b[j].candidate.license
    {
      var i', j' := TwoOriginals(a, b, i, j);
      assert JobOf(a, setting, limit).facts[i'] == JobOf(b, setting, limit).facts[i];
      assert JobOf(a, setting, limit).facts[j'] == JobOf(b, setting, limit).facts[j];
      assert Compatible(JobOf(a, setting, limit), i', j');
    }
  }

  lemma RanksAreLicenses(cs: seq<Lead>, setting: Setting, limit: int)
    ensures LicensesAgree(cs, setting, limit) <==> RanksAgree(JobOf(cs, setting, limit), RankAt(cs))
  {
    forall i: nat, j: nat | i < |cs| && j < |cs|
      ensures RankAt(cs)(i) == RankAt(cs)(j) <==> cs[i].candidate.license == cs[j].candidate.license
    {
    }
  }

  lemma PickedSorted(cs: seq<Lead>, xs: seq<nat>)
    requires InRange(xs, |cs|)
    ensures Sorted(Pick(cs, xs)) <==> RankSorted(xs, RankAt(cs))
  {
    forall k | 0 <= k < |xs|
      ensures RankAt(cs)(xs[k]) == Pick(cs, xs)[k].candidate.license.Rank()
    {
    }
  }

  /**
   * The list handed to validation is sorted by license. The returned one is, for every provider order
   * and interleaving, exactly when any two entries that can be returned together have the same license.
   */
  lemma SortedResultsExactly(req: Request, src: Sources, setting: Setting, order': seq<nat>)
    requires IsOrder(|src.replies|, order')
    ensures Sorted(SafeFirst(Merged(req, src, order')))
    ensures (forall result | CanFind(req, src, setting, result) :: Sorted(result)) <==>
            LicensesAgree(Merged(req, src, order'), setting, Limit(req))
  {
    var cs, limit := Merged(req, src, order'), Limit(req);
    SafeFirstIsStable(cs);
    if LicensesAgree(cs, setting, limit) {
      forall order, schedule, result | Yields(req, src, setting, order, schedule, result)
        ensures Sorted(result)
      {
        MergedIgnoresOrder(req, src, order, order');
        AgreementIgnoresOrder(cs, SafeFirst(Merged(req, src, order)), setting, limit);
        AgreeingIsSorted(SafeFirst(Merged(req, src, order)), setting, limit, schedule, result);
      }
    }
    if forall result | CanFind(req, src, setting, result) :: Sorted(result) {
      MergedIgnoresOrder(req, src, order', order');
      SortedAgrees(req, src, setting, order');
      AgreementIgnoresOrder(SafeFirst(cs), cs, setting, limit);
    }
  }

  lemma AgreeingIsSorted(sorted: seq<Lead>, setting: Setting, limit: int, schedule: seq<Action>, result: seq<Lead>)
    requires LicensesAgree(sorted, setting, limit)
    requires Validates(sorted, JobOf(sorted, setting, limit), schedule, result)
    ensures Sorted(result)
  {
    RanksAreLicenses(sorted, setting, limit);
    SafeFirstExactly(JobOf(sorted, setting, limit), RankAt(sorted));
    PickedSorted(sorted, Exec(JobOf(sorted, setting, limit), schedule).validated);
  }

  lemma SortedAgrees(req: Request, src: Sources, setting: Setting, order: seq<nat>)
    requires IsOrder(|src.replies|, order)
    requires forall result | CanFind(req, src, setting, result) :: Sorted(result)
    ensures LicensesAgree(SafeFirst(Merged(req, src, order)), setting, Limit(req))
  {
    var sorted := SafeFirst(Merged(req, src, order));
    var job := JobOf(sorted, setting, Limit(req));
    forall schedule | IsCompleteRun(job, schedule)
      ensures RankSorted(Exec(job, schedule).validated, RankAt(sorted))
    {
      RunInRange(job, schedule);
      var xs := Exec(job, schedule).validated;
      assert Yields(req, src, setting, order, schedule, Pick(sorted, xs));
      PickedSorted(sorted, xs);
    }
    SafeFirstExactly(job, RankAt(sorted));
    RanksAreLicenses(sorted, setting, Limit(req));
  }

  // ---- What sorting is for: free images are started first

  lemma {:induction false} PrefixIsRun(job: Job, schedule: seq<Action>, n: nat)
    requires IsRun(job, schedule) && n <= |schedule|
    ensures IsRun(job, schedule[..n])
  {
    if n == |schedule| {
      assert schedule[..n] == schedule;
    } else {
      PrefixIsRun(job, schedule[..|schedule| - 1], n);
      assert schedule[..|schedule| - 1][..n] == schedule[..n];
    }
  }

  /** The list that is validated is the merged one, stably sorted. */
  lemma HandedList(req: Request, src: Sources, setting: Setting, order: seq<nat>, schedule: seq<Action>, result: seq<Lead>)
    returns (handed: seq<Lead>)
    requires Yields(req, src, setting, order, schedule, result)
    ensures StablySorted(Merged(req, src, order), handed)
    ensures Validates(handed, JobOf(handed, setting, Limit(req)), schedule, result)
  {
    handed := SafeFirst(Merged(req, src, order));
    SafeFirstIsStable(Merged(req, src, order));
  }

  /** At every moment of every run, a started candidate has no free one, or no better one, still waiting to be started. */
  lemma FreeIsStartedFirst(req: Request, src: Sources, setting: Setting,
                           order: seq<nat>, schedule: seq<Action>, result: seq<Lead>, n: nat)
    returns (handed: seq<Lead>)
    requires Yields(req, src, setting, order, schedule, result) && n <= |schedule|
    ensures Validates(handed, JobOf(handed, setting, Limit(req)), schedule, result)
    ensures
      var s := Exec(JobOf(handed, setting, Limit(req)), schedule[..n]);
      && |s.phases| == |handed|
      && forall i, j | 0 <= i < |handed| && 0 <= j < |handed| && !s.phases[j].Unspawned? && s.phases[i].Unspawned? ::
           handed[j].candidate.license == Safe || handed[i].candidate.license == Blocked ||
           handed[j].candidate.license == handed[i].candidate.license
  {
    handed := HandedList(req, src, setting, order, schedule, result);
    var job := JobOf(handed, setting, Limit(req));
    PrefixIsRun(job, schedule, n);
    SafetyInEveryState(job, schedule[..n]);
  }

  // ---- A call that returns an unsorted list

  /** No extra lists; every image is reachable, unhashed, without metadata, and a photo. */
  function PlainSetting(env: Env): Setting {
    Setting(env, Config([], []),
            lead => Observation(true, None, None, false, ClassificationResult(CLASS_PHOTO, Finite(1.0)), None), false)
  }

  lemma PlainAcceptable(env: Env, lead: Lead)
    requires !lead.candidate.license.Blocked?
    ensures ItemOf(FactsIn(PlainSetting(env), lead)) == Item(None, true)
  {
  }

  lemma PlainKeepsAll(env: Env, limit: int, p: seq<Lead>)
    requires |p| <= limit && forall k | 0 <= k < |p| :: !p[k].candidate.license.Blocked?
    ensures Sequential(PlainSetting(env), limit, p) == p
  {
    var items := Items(JobOf(p, PlainSetting(env), limit));
    forall k | 0 <= k < |p|
      ensures items[k] == Item(None, true)
    {
      PlainAcceptable(env, p[k]);
    }
    ApartAllKept(items, limit, Upto(|p|));
    assert Pick(p, Upto(|p|)) == p;
  }

  /** Candidates given by the caller alone come back as given: any number up to the limit, which is three by default. */
  lemma ExternalsComeBack(env: Env, req: Request, src: Sources, order: seq<nat>)
    requires IsOrder(|src.replies|, order) && req.query == "" && req.pageURL == ""
    requires |req.external| <= if req.maxResults <= 0 then 3 else req.maxResults
    requires forall k | 0 <= k < |req.external| :: req.external[k].candidate.license != Blocked
    ensures CanFind(req, src, PlainSetting(env), req.external)
  {
    assert Merged(req, src, order) == req.external;
    AnyOrderComesBack(env, req, src, order, req.external);
  }

  /** Images of the page come back exactly when no content or og provider is configured. */
  lemma PageImagesComeBack(env: Env, req: Request, src: Sources, order: seq<nat>)
    requires IsOrder(|src.replies|, order) && req.query == "" && req.pageURL != "" && req.external == []
    requires |src.content| <= if req.maxResults <= 0 then 3 else req.maxResults
    requires forall k | 0 <= k < |src.content| :: src.content[k].candidate.license != Blocked
    ensures CanFind(req, src, PlainSetting(env), if "content" in src.names || "og" in src.names then [] else src.content)
  {
    var p := if "content" in src.names || "og" in src.names then [] else src.content;
    assert Merged(req, src, order) == p;
    AnyOrderComesBack(env, req, src, order, p);
  }

  /** What a provider finds comes back when there is a query, and is not even asked for without one. */
  lemma ProviderItemsComeBack(env: Env, req: Request, src: Sources, items: seq<Lead>)
    requires src.replies == [Found(items)] && req.pageURL == "" && req.external == []
    requires |items| <= if req.maxResults <= 0 then 3 else req.maxResults
    requires forall k | 0 <= k < |items| :: items[k].candidate.license != Blocked
    ensures CanFind(req, src, PlainSetting(env), if req.query == "" then [] else items)
  {
    assert [0][..0] == [] && [0][0] == 0;
    assert Gathered(src.replies, []) == [];
    assert Gathered(src.replies, [0]) == items;
    var p := if req.query == "" then [] else items;
    assert Merged(req, src, [0]) == p;
    AnyOrderComesBack(env, req, src, [0], p);
  }

  lemma MergedPair(req: Request, src: Sources, x: Lead, y: Lead)
    requires req.query != "" && req.pageURL == "" && req.external == [] && src.replies == [Found([x, y])]
    ensures IsOrder(1, [0]) && Merged(req, src, [0]) == [x, y]
  {
    assert [0][..0] == [] && [0][0] == 0;
    assert Gathered(src.replies, []) == [];
    assert Gathered(src.replies, [0]) == [x, y];
  }

  /** In the plain setting every permutation of a short list without blocked candidates can come back. */
  lemma AnyOrderComesBack(env: Env, req: Request, src: Sources, order: seq<nat>, p: seq<Lead>)
    requires IsOrder(|src.replies|, order) && multiset(p) == multiset(Merged(req, src, order))
    requires |p| <= Limit(req) && forall k | 0 <= k < |p| :: !p[k].candidate.license.Blocked?
    ensures CanFind(req, src, PlainSetting(env), p)
  {
    PlainKeepsAll(env, Limit(req), p);
    SequentialIsYielded(req, src, PlainSetting(env), order, p);
  }

  lemma SwapPair(x: Lead, y: Lead)
    ensures multiset([x, y]) == multiset([y, x])
    ensures x.candidate.license.Rank() < y.candidate.license.Rank() ==> !Sorted([y, x])
  {
    assert [y, x][0] == y && [y, x][1] == x;
  }

  function Pictured(url: string, license: License, tag: nat): Lead {
    Lead(Candidate(url, "", "", "", license, 0, 0, ""), tag)
  }

  /** A concrete call, with two images asked for, whose result is not sorted, whatever the environment. */
  lemma UnsortedExample(env: Env)
    ensures
      var x, y := Pictured("http://a", Safe, 0), Pictured("http://b", Unknown, 1);
      CanFind(Request("q", "", [], 2), Sources(["p"], [Found([x, y])], []), PlainSetting(env), [y, x]) && !Sorted([y, x])
  {
    var x, y := Pictured("http://a", Safe, 0), Pictured("http://b", Unknown, 1);
    var req, src := Request("q", "", [], 2), Sources(["p"], [Found([x, y])], []);
    MergedPair(req, src, x, y);
    SwapPair(x, y);
    AnyOrderComesBack(env, req, src, [0], [y, x]);
  }
}
