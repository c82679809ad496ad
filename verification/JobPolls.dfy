// The polls of src/job_system.cpp: taking finished results out of the completed list.
module JobPolls {
  import opened Bags

  datatype JobOwner = Engine | Lua

  datatype JobRequest = JobRequest(id: nat, kind: string, payload: string, owner: JobOwner)

  datatype JobResult = JobResult(id: nat, ok: bool, kind: string, result: string, error: string, owner: JobOwner)

  /** `taken` is what a poll for at most `limit` results takes out of `before`, leaving `after`: there is a cut
      before which every match is taken and everything else stays, and behind which nothing is touched; the cut
      is behind everything unless the limit is reached first. */
  ghost predicate Polls(matches: JobResult -> bool, limit: nat, before: seq<JobResult>, taken: seq<JobResult>,
                        after: seq<JobResult>, cut: nat)
  {
    && cut <= |before| && |taken| <= limit && (cut < |before| ==> |taken| == limit)
    && taken == Filter(matches, before[..cut])
    && after == Filter(Not(matches), before[..cut]) + before[cut..]
  }

  /** The first matching results in order come out, no more than asked for; the others stay, in order. */
  lemma PollsInOrder(matches: JobResult -> bool, limit: nat, before: seq<JobResult>, taken: seq<JobResult>,
                     after: seq<JobResult>, cut: nat)
    requires Polls(matches, limit, before, taken, after, cut)
    ensures Filter(matches, before) == taken + Filter(matches, after)
    ensures Filter(Not(matches), after) == Filter(Not(matches), before)
    ensures |taken| == if |Filter(matches, before)| < limit then |Filter(matches, before)| else limit
  {
    var front, back := before[..cut], before[cut..];
    assert before == front + back;
    CutFilters(matches, front, back);
    if cut == |before| {
      assert back == [] && taken + Filter(matches, back) == taken;
    }
  }

  lemma CutFilters(p: JobResult -> bool, front: seq<JobResult>, back: seq<JobResult>)
    ensures Filter(p, front + back) == Filter(p, front) + Filter(p, back)
    ensures Filter(p, Filter(Not(p), front) + back) == Filter(p, back)
    ensures Filter(Not(p), Filter(Not(p), front) + back) == Filter(Not(p), front + back)
  {
    var rest := Filter(Not(p), front);
    FilterConcat(p, front, back);
    FilterConcat(Not(p), front, back);
    FilterConcat(p, rest, back);
    FilterConcat(Not(p), rest, back);
    FilterMembers(Not(p), front);
    FilterNone(p, rest);
    FilterAll(Not(p), rest);
  }

  /** Nothing is lost or copied. */
  lemma PollsConserve(p: JobResult -> bool, matches: JobResult -> bool, limit: nat, before: seq<JobResult>,
                      taken: seq<JobResult>, after: seq<JobResult>, cut: nat)
    requires Polls(matches, limit, before, taken, after, cut)
    ensures Count(p, before) == Count(p, taken) + Count(p, after)
  {
    var front, back := before[..cut], before[cut..];
    assert before == front + back;
    CountParts(p, matches, front);
    CountConcat(p, front, back);
    CountConcat(p, Filter(Not(matches), front), back);
  }

  class Completed {
    var completed: seq<JobResult>

    constructor ()
      ensures completed == []
    {
      completed := [];
    }

    /** Every result, or the first maxResults of them; 0 asks for all. */
    method Poll(maxResults: nat) returns (results: seq<JobResult>)
      modifies this
      ensures var n := if maxResults == 0 || maxResults > |old(completed)| then |old(completed)| else maxResults;
        results == old(completed)[..n] && completed == old(completed)[n..]
    {
      if completed == [] {
        return [];
      }
      if maxResults == 0 || maxResults >= |completed| {
        results := completed;
        completed := [];
        return;
      }
      results := completed[..maxResults];
      completed := completed[maxResults..];
    }

    /** The loop of the three selective polls. */
    method TakeMatching(matches: JobResult -> bool, maxResults: nat) returns (results: seq<JobResult>, ghost cut: nat)
      modifies this
      ensures Polls(matches, if maxResults == 0 then |old(completed)| else maxResults, old(completed), results,
                    completed, cut)
    {
      results, cut := [], 0;
      if completed == [] {
        return;
      }
      var limit := if maxResults == 0 then |completed| else maxResults;
      ghost var before := completed;
      var it := 0;
      while it < |completed| && |results| < limit
        invariant cut <= |before| && it <= |completed| && |results| <= limit
        invariant results == Filter(matches, before[..cut])
        invariant completed[..it] == Filter(Not(matches), before[..cut]) && completed[it..] == before[cut..]
        invariant |results| <= cut
        decreases |before| - cut
      {
        assert before[..cut + 1] == before[..cut] + [before[cut]];
        FilterAppend(matches, before[..cut], before[cut]);
        FilterAppend(Not(matches), before[..cut], before[cut]);
        assert completed[it] == completed[it..][0] == before[cut];
        assert before[cut..][1..] == before[cut + 1..];
        if matches(completed[it]) {
          results := results + [completed[it]];
          assert completed[it..][1..] == completed[it + 1..];
          completed := completed[..it] + completed[it + 1..];
        } else {
          assert completed[..it + 1] == completed[..it] + [completed[it]];
          assert completed[it..][1..] == completed[it + 1..];
          it := it + 1;
        }
        cut := cut + 1;
      }
      assert completed == completed[..it] + completed[it..];
      if it == |completed| {
        assert completed[it..] == [];
      }
    }

    method PollKind(kind: string, maxResults: nat) returns (results: seq<JobResult>, ghost cut: nat)
      modifies this
      ensures Polls(OfKind(kind), if maxResults == 0 then |old(completed)| else maxResults, old(completed), results,
                    completed, cut)
      ensures forall r :: r in results ==> r.kind == kind
      ensures cut == |old(completed)| ==> forall r :: r in completed ==> r.kind != kind
    {
      results, cut := TakeMatching(OfKind(kind), maxResults);
      TakenMatch(OfKind(kind), old(completed), results, completed, cut);
    }

    method PollOwner(owner: JobOwner, maxResults: nat) returns (results: seq<JobResult>, ghost cut: nat)
      modifies this
      ensures Polls(OfOwner(owner), if maxResults == 0 then |old(completed)| else maxResults, old(completed), results,
                    completed, cut)
      ensures forall r :: r in results ==> r.owner == owner
      ensures cut == |old(completed)| ==> forall r :: r in completed ==> r.owner != owner
    {
      results, cut := TakeMatching(OfOwner(owner), maxResults);
      TakenMatch(OfOwner(owner), old(completed), results, completed, cut);
    }

    method PollKindOwner(kind: string, owner: JobOwner, maxResults: nat)
      returns (results: seq<JobResult>, ghost cut: nat)
      modifies this
      ensures Polls(OfKindAndOwner(kind, owner), if maxResults == 0 then |old(completed)| else maxResults,
                    old(completed), results, completed, cut)
      ensures forall r :: r in results ==> r.kind == kind && r.owner == owner
      ensures cut == |old(completed)| ==> forall r :: r in completed ==> r.kind != kind || r.owner != owner
    {
      results, cut := TakeMatching(OfKindAndOwner(kind, owner), maxResults);
      TakenMatch(OfKindAndOwner(kind, owner), old(completed), results, completed, cut);
    }
  }

  /** What is taken matches, and once everything has been looked at, nothing that is left does. */
  lemma TakenMatch(matches: JobResult -> bool, before: seq<JobResult>, taken: seq<JobResult>, after: seq<JobResult>,
                   cut: nat)
    requires cut <= |before| && taken == Filter(matches, before[..cut])
    requires after == Filter(Not(matches), before[..cut]) + before[cut..]
    ensures forall r :: r in taken ==> matches(r)
    ensures cut == |before| ==> forall r :: r in after ==> !matches(r)
  {
    FilterMembers(matches, before[..cut]);
    FilterMembers(Not(matches), before[..cut]);
  }

  function OfKind(kind: string): JobResult -> bool {
    (r: JobResult) => r.kind == kind
  }

  function OfOwner(owner: JobOwner): JobResult -> bool {
    (r: JobResult) => r.owner == owner
  }

  function OfKindAndOwner(kind: string, owner: JobOwner): JobResult -> bool {
    (r: JobResult) => r.kind == kind && r.owner == owner
  }
}
