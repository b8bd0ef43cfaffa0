/**
 The lifecycle of stored evidence: versioned state transitions, expiry of rights, and the reconciliation of claim links with
 what is still eligible.
 */
module EvidenceLifecycle {
  import opened Basics

  type Id = nat

  datatype ContentState =
    Available | MetadataOnly | Redacted | Expired | MissingExternal | UnavailableAtCapture | Deleted

  predicate Legal(from: ContentState, to: ContentState) {
    match from
    case Available => to.Redacted? || to.Expired? || to.Deleted? || to.MissingExternal?
    case MetadataOnly => to.Expired? || to.Deleted? || to.MissingExternal?
    case Redacted => to.Expired? || to.Deleted? || to.MissingExternal?
    case Expired => to.Deleted?
    case MissingExternal => to.Deleted?
    case UnavailableAtCapture => to.Deleted?
    case Deleted => false
  }

  datatype Entry = Entry(state: ContentState, version: nat, rightsExpireAt: Option<int>)

  type Ledger = map<Id, Entry>

  predicate RightsOver(e: Entry, now: int) {
    e.rightsExpireAt.Some? && e.rightsExpireAt.value <= now
  }

  predicate Usable(s: ContentState) {
    s.Available? || s.MetadataOnly? || s.Redacted?
  }

  predicate ClaimEligible(e: Entry, now: int) {
    Usable(e.state) && !RightsOver(e, now)
  }

  datatype Outcome = Moved(entry: Entry) | UnknownEvidence | StaleVersion | IllegalTransition | RightsNotExpired

  datatype Request = Request(to: ContentState, expected: int, now: int)

  function Attempt(e: Entry, q: Request): Outcome {
    if e.version != q.expected then StaleVersion
    else if !Legal(e.state, q.to) then IllegalTransition
    else if q.to.Expired? && !RightsOver(e, q.now) then RightsNotExpired
    else Moved(e.(state := q.to, version := e.version + 1))
  }

  /** Where a state may be left for: only availability for redaction, only usable states for anything but deletion. */
  ghost predicate MayMove(from: ContentState, to: ContentState) {
    match to
    case Redacted => from == Available
    case Expired => from == Available || from == MetadataOnly || from == Redacted
    case MissingExternal => from == Available || from == MetadataOnly || from == Redacted
    case Deleted => from != Deleted
    case Available => false
    case MetadataOnly => false
    case UnavailableAtCapture => false
  }

  /** The instant is past the one the rights run until. */
  ghost predicate Overdue(e: Entry, now: int) {
    match e.rightsExpireAt
    case None => false
    case Some(until) => now >= until
  }

  /** The first objection to a request, or the move to the next version. */
  lemma AttemptMeans(e: Entry, q: Request)
    ensures Attempt(e, q) ==
            if q.expected != e.version then StaleVersion
            else if !MayMove(e.state, q.to) then IllegalTransition
            else if q.to == Expired && !Overdue(e, q.now) then RightsNotExpired
            else Moved(Entry(q.to, e.version + 1, e.rightsExpireAt))
  {
  }

  /** What a request leaves of the entry. */
  function After(e: Entry, q: Request): Entry {
    var o := Attempt(e, q);
    if o.Moved? then o.entry else e
  }

  function AfterAll(e: Entry, qs: seq<Request>): Entry {
    if qs == [] then e else After(AfterAll(e, qs[..|qs| - 1]), qs[|qs| - 1])
  }

  // ---- One item over any sequence of requests ----

  /** How many moves a state can still make. */
  function Rank(s: ContentState): nat {
    match s
    case Available => 3
    case MetadataOnly => 2
    case Redacted => 2
    case Deleted => 0
    case _ => 1
  }

  ghost function MovesLeft(s: ContentState): nat {
    if s == Available then 3 else if s == MetadataOnly || s == Redacted then 2 else if s == Deleted then 0 else 1
  }

  /** The bound is attained: some requests move the item exactly that often. */
  lemma {:induction false} MovesAreAttained(e: Entry) returns (qs: seq<Request>)
    ensures AfterAll(e, qs).version == e.version + MovesLeft(e.state)
    decreases MovesLeft(e.state)
  {
    if e.state == Deleted {
      qs := [];
    } else {
      var to := if e.state == Available then Redacted
                else if e.state == MetadataOnly || e.state == Redacted then MissingExternal else Deleted;
      var q := Request(to, e.version, 0);
      var rest := MovesAreAttained(After(e, q));
      qs := [q] + rest;
      AfterFirst(e, q, rest);
    }
  }

  lemma {:induction false} AfterFirst(e: Entry, q: Request, rest: seq<Request>)
    ensures AfterAll(e, [q] + rest) == AfterAll(After(e, q), rest)
  {
    var all := [q] + rest;
    if rest == [] {
      assert all[..0] == [];
    } else {
      AfterFirst(e, q, rest[..|rest| - 1]);
      assert all[..|all| - 1] == [q] + rest[..|rest| - 1];
    }
  }

  lemma AttemptLowersRank(e: Entry, q: Request)
    ensures Attempt(e, q).Moved? ==> Rank(After(e, q).state) < Rank(e.state) && After(e, q).version == e.version + 1
    ensures Usable(After(e, q).state) ==> Usable(e.state)
    ensures After(e, q).rightsExpireAt == e.rightsExpireAt
  {
  }

  /**
   Whatever is requested, in any order and with any versions, an item moves at most three times from availability, twice when
   redacted or known by its metadata, never when deleted and once otherwise, its version counts the moves, and it never becomes
   usable again once it is not.
   */
  lemma {:induction false} MovesAreBounded(e: Entry, qs: seq<Request>)
    ensures var f := AfterAll(e, qs);
            && f.version - e.version <= Rank(e.state) - Rank(f.state)
            && f.version >= e.version
            && f.version <= e.version + MovesLeft(e.state)
            && f.rightsExpireAt == e.rightsExpireAt
            && (f.state == Available || f.state == MetadataOnly || f.state == Redacted ==>
                  e.state == Available || e.state == MetadataOnly || e.state == Redacted)
  {
    if qs != [] {
      MovesAreBounded(e, qs[..|qs| - 1]);
      AttemptLowersRank(AfterAll(e, qs[..|qs| - 1]), qs[|qs| - 1]);
    }
  }

  function Successes(e: Entry, qs: seq<Request>): nat {
    if qs == [] then 0
    else
      Successes(e, qs[..|qs| - 1]) + (if Attempt(AfterAll(e, qs[..|qs| - 1]), qs[|qs| - 1]).Moved? then 1 else 0)
  }

  lemma {:induction false} VersionCountsMoves(e: Entry, qs: seq<Request>)
    ensures AfterAll(e, qs).version == e.version + Successes(e, qs)
  {
    if qs != [] {
      VersionCountsMoves(e, qs[..|qs| - 1]);
    }
  }

  /** Of all requests made against one version, at most one ever succeeds. */
  lemma {:induction false} OneWinnerPerVersion(e: Entry, qs: seq<Request>, i: nat, j: nat)
    requires i < j < |qs| && qs[i].expected == qs[j].expected
    ensures !(Attempt(AfterAll(e, qs[..i]), qs[i]).Moved? && Attempt(AfterAll(e, qs[..j]), qs[j]).Moved?)
  {
    var a, b := AfterAll(e, qs[..i + 1]), AfterAll(e, qs[..j]);
    assert qs[..i + 1][..i] == qs[..i];
    VersionsGrow(e, qs, i + 1, j);
  }

  lemma {:induction false} VersionsGrow(e: Entry, qs: seq<Request>, i: nat, j: nat)
    requires i <= j <= |qs|
    ensures AfterAll(e, qs[..i]).version <= AfterAll(e, qs[..j]).version
    decreases j
  {
    if i < j {
      VersionsGrow(e, qs, i, j - 1);
      assert qs[..j][..j - 1] == qs[..j - 1];
    }
  }

  // ---- Rights expiry over the whole ledger ----

  function Expire(e: Entry, now: int): Entry {
    if RightsOver(e, now) && Usable(e.state) then e.(state := Expired, version := e.version + 1) else e
  }

  class LifecycleService {
    var entries: Ledger

    method Transition(id: Id, q: Request) returns (r: Outcome)
      modifies this
      ensures r == if id in old(entries) then Attempt(old(entries)[id], q) else UnknownEvidence
      ensures entries.Keys == old(entries).Keys
      ensures forall k :: k in entries ==> entries[k] == if k == id then After(old(entries)[k], q) else old(entries)[k]
      ensures id in old(entries) ==>
                var e := old(entries)[id];
                && (r == StaleVersion <==> q.expected != e.version)
                && (r == IllegalTransition <==> q.expected == e.version && !MayMove(e.state, q.to))
                && (r == RightsNotExpired <==>
                      q.expected == e.version && MayMove(e.state, q.to) && q.to == Expired && !Overdue(e, q.now))
                && (r.Moved? ==> r.entry == Entry(q.to, e.version + 1, e.rightsExpireAt))
                && entries == if r.Moved? then old(entries)[id := r.entry] else old(entries)
    {
      if id in entries {
        AttemptMeans(entries[id], q);
      }
      if id !in entries {
        return UnknownEvidence;
      }
      var current := entries[id];
      if current.version != q.expected {
        return StaleVersion;
      }
      if !Legal(current.state, q.to) {
        return IllegalTransition;
      }
      if q.to.Expired? && (current.rightsExpireAt.None? || current.rightsExpireAt.value > q.now) {
        return RightsNotExpired;
      }
      var moved := Entry(q.to, current.version + 1, current.rightsExpireAt);
      entries := entries[id := moved];
      return Moved(moved);
    }

    /** `enforce_rights_expiry` over the stored items `ids`: it never meets an error and leaves nothing overdue usable. */
    method EnforceRightsExpiry(ids: seq<Id>, now: int) returns (expired: seq<Id>)
      requires forall id :: id in ids <==> id in entries
      requires forall i, j :: 0 <= i < j < |ids| ==> ids[i] != ids[j]
      modifies this
      ensures entries.Keys == old(entries).Keys
      ensures forall k :: k in entries ==> entries[k] == Expire(old(entries)[k], now)
      ensures forall k :: k in expired <==> k in entries && entries[k] != old(entries)[k]
      ensures forall k :: k in entries ==> !(RightsOver(entries[k], now) && Usable(entries[k].state))
      ensures forall k :: k in entries ==>
                var e := old(entries)[k];
                entries[k] == if Overdue(e, now) && (e.state == Available || e.state == MetadataOnly || e.state == Redacted)
                              then Entry(Expired, e.version + 1, e.rightsExpireAt) else e
    {
      expired := [];
      for n := 0 to |ids|
        invariant entries.Keys == old(entries).Keys
        invariant forall m :: 0 <= m < n ==> entries[ids[m]] == Expire(old(entries)[ids[m]], now)
        invariant forall m :: n <= m < |ids| ==> entries[ids[m]] == old(entries)[ids[m]]
        invariant forall k :: k in expired ==> k in entries && entries[k] != old(entries)[k]
        invariant forall m :: 0 <= m < n && ids[m] !in expired ==> entries[ids[m]] == old(entries)[ids[m]]
      {
        var current := entries[ids[n]];
        if RightsOver(current, now) {
          if Usable(current.state) {
            var r := Transition(ids[n], Request(Expired, current.version, now));
            assert r == Moved(Expire(current, now));
            expired := expired + [ids[n]];
          }
        }
      }
      forall k | k in entries
        ensures entries[k] == Expire(old(entries)[k], now) && (k in expired <==> entries[k] != old(entries)[k])
      {
        assert k in ids;
        var m :| 0 <= m < |ids| && ids[m] == k;
      }
    }
  }

  // ---- Claim reconciliation ----

  datatype Relation = Supports | Contradicts | SameFamily | DerivedFrom

  datatype Link = Link(evidence: Id, relation: Relation)

  datatype Tally = Tally(supports: nat, contradictions: nat, invalidated: nat)

  function Count(links: seq<Link>, p: Link -> bool): (n: nat)
    ensures n <= |links|
  {
    if links == [] then 0 else Count(links[..|links| - 1], p) + (if p(links[|links| - 1]) then 1 else 0)
  }

  predicate Live(l: Link, entries: Ledger, now: int) {
    l.evidence in entries && ClaimEligible(entries[l.evidence], now)
  }

  function Reconciled(links: seq<Link>, entries: Ledger, now: int): Tally {
    Tally(Count(links, (l: Link) => Live(l, entries, now) && l.relation.Supports?),
          Count(links, (l: Link) => Live(l, entries, now) && l.relation.Contradicts?),
          Count(links, (l: Link) => !Live(l, entries, now)))
  }

  /** `claim_reconciliation`; every link names stored evidence. */
  method ClaimReconciliation(links: seq<Link>, entries: Ledger, now: int) returns (t: Tally)
    requires forall l :: l in links ==> l.evidence in entries
    ensures t == Reconciled(links, entries, now)
  {
    var supports, contradictions, invalidated := 0, 0, 0;
    ghost var p := (l: Link) => Live(l, entries, now) && l.relation.Supports?;
    ghost var q := (l: Link) => Live(l, entries, now) && l.relation.Contradicts?;
    ghost var r := (l: Link) => !Live(l, entries, now);
    for k := 0 to |links|
      invariant supports == Count(links[..k], p)
      invariant contradictions == Count(links[..k], q)
      invariant invalidated == Count(links[..k], r)
    {
      var link := links[k];
      assert links[..k + 1][..k] == links[..k] && links[..k + 1][k] == link;
      if !ClaimEligible(entries[link.evidence], now) {
        invalidated := invalidated + 1;
      } else if link.relation.Supports? {
        supports := supports + 1;
      } else if link.relation.Contradicts? {
        contradictions := contradictions + 1;
      }
    }
    assert links[..|links|] == links;
    t := Tally(supports, contradictions, invalidated);
  }

  /** The links for which `p` holds, by position. */
  ghost function Which(links: seq<Link>, p: Link -> bool): set<nat> {
    set k: nat | k < |links| && p(links[k])
  }

  lemma {:induction false} CountIsSize(links: seq<Link>, p: Link -> bool)
    ensures Count(links, p) == |Which(links, p)|
  {
    if links != [] {
      var n := |links| - 1;
      CountIsSize(links[..n], p);
      var front := Which(links[..n], p);
      assert Which(links, p) == if p(links[n]) then front + {n} else front;
    }
  }

  /** The evidence is stored, available in some form, and its rights have not run out. */
  ghost predicate Counts(entries: Ledger, id: Id, now: int) {
    && id in entries
    && (entries[id].state == Available || entries[id].state == MetadataOnly || entries[id].state == Redacted)
    && !Overdue(entries[id], now)
  }

  /** The tally is the number of supporting and contradicting links whose evidence counts, and of all links whose does not. */
  lemma ReconciledMeans(links: seq<Link>, entries: Ledger, now: int)
    ensures var t := Reconciled(links, entries, now);
            && t.supports ==
               |set k: nat | k < |links| && Counts(entries, links[k].evidence, now) && links[k].relation == Supports|
            && t.contradictions ==
               |set k: nat | k < |links| && Counts(entries, links[k].evidence, now) && links[k].relation == Contradicts|
            && t.invalidated == |set k: nat | k < |links| && !Counts(entries, links[k].evidence, now)|
  {
    var p := (l: Link) => Live(l, entries, now) && l.relation.Supports?;
    var q := (l: Link) => Live(l, entries, now) && l.relation.Contradicts?;
    var r := (l: Link) => !Live(l, entries, now);
    CountIsSize(links, p);
    CountIsSize(links, q);
    CountIsSize(links, r);
    assert forall l: Link :: Live(l, entries, now) <==> Counts(entries, l.evidence, now);
    assert Which(links, p) == set k: nat | k < |links| && Counts(entries, links[k].evidence, now) && links[k].relation == Supports;
    assert Which(links, q) == set k: nat | k < |links| && Counts(entries, links[k].evidence, now) && links[k].relation == Contradicts;
    assert Which(links, r) == set k: nat | k < |links| && !Counts(entries, links[k].evidence, now);
  }

  lemma {:induction false} CountImplies(links: seq<Link>, p: Link -> bool, q: Link -> bool)
    requires forall l :: p(l) ==> q(l)
    ensures Count(links, p) <= Count(links, q)
  {
    if links != [] {
      CountImplies(links[..|links| - 1], p, q);
    }
  }

  /** `later` is what some requests and expiries have made of `earlier`. */
  ghost predicate Later(earlier: Ledger, later: Ledger) {
    && earlier.Keys == later.Keys
    && forall k :: k in earlier ==> exists qs :: later[k] == AfterAll(earlier[k], qs)
  }

  /** Time and transitions only ever take support away: no tally gains an active link, and none loses an invalidated one. */
  lemma InvalidationIsMonotone(links: seq<Link>, earlier: Ledger, later: Ledger, t: int, u: int)
    requires Later(earlier, later) && t <= u
    ensures var before, after := Reconciled(links, earlier, t), Reconciled(links, later, u);
            && after.supports <= before.supports
            && after.contradictions <= before.contradictions
            && after.invalidated >= before.invalidated
  {
    forall l | Live(l, later, u) ensures Live(l, earlier, t) {
      var qs :| later[l.evidence] == AfterAll(earlier[l.evidence], qs);
      MovesAreBounded(earlier[l.evidence], qs);
    }
    CountImplies(links, (l: Link) => Live(l, later, u) && l.relation.Supports?,
                 (l: Link) => Live(l, earlier, t) && l.relation.Supports?);
    CountImplies(links, (l: Link) => Live(l, later, u) && l.relation.Contradicts?,
                 (l: Link) => Live(l, earlier, t) && l.relation.Contradicts?);
    CountImplies(links, (l: Link) => !Live(l, earlier, t), (l: Link) => !Live(l, later, u));
  }
}
