/**
 The audit checkpoint's hash chain over a contiguous journal prefix. SHA-256 and canonical JSON are parameters: JSON is
 injective and digests are 64 characters long. No collision-freedom is assumed; where two journals could only agree
 because of a collision, the collision is produced.
 */
module AuditChain {
  import opened Basics
  import opened Sorting

  /** An authority payload; opaque here. */
  type Json = string

  datatype Entry = Entry(position: int, kind: string, entityId: string, acceptedAt: string, payload: Json)

  /** `_entry_payload`: what is hashed of an entry. */
  datatype Row = Row(position: int, kind: string, entityId: string, acceptedAt: string, payloadSha: string)

  datatype Link = Link(row: Row, predecessor: string, digest: string)

  datatype Hasher = Hasher(
    sha: string -> string,
    payloadJson: Json -> string,
    rowJson: Row -> string,
    transcriptJson: seq<Link> -> string)

  const DigestLength: nat := 64

  function Zeros(n: nat): (r: string)
    ensures |r| == n
  {
    if n == 0 then "" else Zeros(n - 1) + "0"
  }

  const Genesis: string := Zeros(DigestLength)

  ghost predicate Lawful(h: Hasher) {
    && (forall x {:trigger h.sha(x)} :: |h.sha(x)| == DigestLength)
    && (forall p, q {:trigger h.payloadJson(p), h.payloadJson(q)} :: h.payloadJson(p) == h.payloadJson(q) ==> p == q)
    && (forall r, s {:trigger h.rowJson(r), h.rowJson(s)} :: h.rowJson(r) == h.rowJson(s) ==> r == s)
  }

  ghost predicate Collision(h: Hasher, x: string, y: string) {
    x != y && h.sha(x) == h.sha(y)
  }

  function RowOf(h: Hasher, e: Entry): Row {
    Row(e.position, e.kind, e.entityId, e.acceptedAt, h.sha(h.payloadJson(e.payload)))
  }

  // ---- The chain ----

  function Transcript(h: Hasher, ordered: seq<Entry>): (t: seq<Link>)
    ensures |t| == |ordered|
  {
    if ordered == [] then []
    else
      var front := Transcript(h, ordered[..|ordered| - 1]);
      var previous := if front == [] then Genesis else front[|front| - 1].digest;
      var row := RowOf(h, ordered[|ordered| - 1]);
      front + [Link(row, previous, h.sha(previous + h.rowJson(row)))]
  }

  function Root(h: Hasher, ordered: seq<Entry>): string {
    if ordered == [] then Genesis else Transcript(h, ordered)[|ordered| - 1].digest
  }

  const ByPosition: (Entry, Entry) -> bool := (a: Entry, b: Entry) => a.position <= b.position

  predicate Contiguous(s: seq<Entry>) {
    forall i :: 0 <= i < |s| ==> s[i].position == i + 1
  }

  datatype ChainError = EmptyJournal | NotContiguous

  datatype Chain = Built(root: string, transcript: seq<Link>) | Refused(error: ChainError)

  function ChainOf(h: Hasher, entries: seq<Entry>): Chain {
    var ordered := Sort(entries, ByPosition);
    if ordered == [] then Refused(EmptyJournal)
    else if !Contiguous(ordered) then Refused(NotContiguous)
    else Built(Root(h, ordered), Transcript(h, ordered))
  }

  // ---- The chain, spelled out ----

  ghost predicate Taken(entries: seq<Entry>, p: int) {
    exists e :: e in entries && e.position == p
  }

  /** Every position from 1 to the number of entries is taken, so each exactly once. */
  ghost predicate Covers(entries: seq<Entry>) {
    forall p :: 1 <= p <= |entries| ==> Taken(entries, p)
  }

  ghost predicate InOrder(s: seq<Entry>) {
    forall i, j :: 0 <= i < j < |s| ==> s[i].position <= s[j].position
  }

  lemma {:induction false} CoveringPositions(s: seq<Entry>)
    requires InOrder(s) && Covers(s)
    ensures Contiguous(s)
  {
    if s != [] {
      var n := |s| - 1;
      var front := s[..n];
      LargestCovered(s);
      forall p | 1 <= p <= n ensures Taken(front, p) {
        assert Taken(s, p);
        var e :| e in s && e.position == p;
        var k :| 0 <= k < |s| && s[k] == e;
        assert front[k] == e;
      }
      CoveringPositions(front);
      assert Taken(s, n + 1);
      var e :| e in s && e.position == n + 1;
      var k :| 0 <= k < |s| && s[k] == e;
      assert k == n || front[k].position == k + 1;
    }
  }

  lemma LargestCovered(s: seq<Entry>)
    requires InOrder(s) && Covers(s) && s != []
    ensures s[|s| - 1].position >= |s|
  {
    assert Taken(s, |s|);
    var e :| e in s && e.position == |s|;
    var k :| 0 <= k < |s| && s[k] == e;
  }

  lemma SortInOrder(entries: seq<Entry>)
    ensures InOrder(Sort(entries, ByPosition))
  {
    SortSorted(entries, ByPosition);
    var s := Sort(entries, ByPosition);
    forall i, j | 0 <= i < j < |s| ensures s[i].position <= s[j].position {
      assert ByPosition(s[i], s[j]);
    }
  }

  lemma ContiguousIff(entries: seq<Entry>)
    ensures Contiguous(Sort(entries, ByPosition)) <==> Covers(entries)
  {
    var s := Sort(entries, ByPosition);
    SortMembers(entries, ByPosition);
    if Contiguous(s) {
      forall p | 1 <= p <= |entries| ensures Taken(entries, p) {
        assert s[p - 1] in s;
      }
    }
    if Covers(entries) {
      SortInOrder(entries);
      forall p | 1 <= p <= |s| ensures Taken(s, p) {
        assert Taken(entries, p);
      }
      CoveringPositions(s);
    }
  }

  /** Sixty-four zeros. */
  ghost predicate IsGenesis(s: string) {
    |s| == 64 && forall i :: 0 <= i < |s| ==> s[i] == '0'
  }

  lemma {:induction false} ZerosAreZeros(n: nat)
    ensures forall i :: 0 <= i < n ==> Zeros(n)[i] == '0'
  {
    if n > 0 {
      ZerosAreZeros(n - 1);
    }
  }

  lemma GenesisIsZeros()
    ensures IsGenesis(Genesis)
  {
    ZerosAreZeros(DigestLength);
  }

  /**
   The transcript has one link per entry, in position order: its row hashes the payload, its predecessor is the digest before
   it (zeros at the start), its digest covers both, and the last digest is the root.
   */
  ghost predicate Chained(h: Hasher, entries: seq<Entry>, t: seq<Link>, root: string) {
    && |t| == |entries|
    && (forall i: nat :: i < |t| ==> LinksSome(h, entries, t, i))
    && t != [] && root == t[|t| - 1].digest
  }

  ghost predicate LinksSome(h: Hasher, entries: seq<Entry>, t: seq<Link>, i: nat)
    requires i < |t|
  {
    exists e :: e in entries && e.position == i + 1 && Links(h, t, i, e)
  }

  ghost predicate Links(h: Hasher, t: seq<Link>, i: nat, e: Entry)
    requires i < |t|
  {
    && t[i].row == Row(e.position, e.kind, e.entityId, e.acceptedAt, h.sha(h.payloadJson(e.payload)))
    && (if i == 0 then IsGenesis(t[i].predecessor) else t[i].predecessor == t[i - 1].digest)
    && t[i].digest == h.sha(t[i].predecessor + h.rowJson(t[i].row))
  }

  lemma {:induction false} TranscriptLinks(h: Hasher, ordered: seq<Entry>, i: nat)
    requires i < |ordered|
    ensures Links(h, Transcript(h, ordered), i, ordered[i])
  {
    var n := |ordered| - 1;
    GenesisIsZeros();
    if i < n {
      TranscriptLinks(h, ordered[..n], i);
    }
  }

  lemma OrderedChained(h: Hasher, entries: seq<Entry>)
    requires entries != [] && Covers(entries)
    ensures ChainOf(h, entries).Built?
    ensures Chained(h, entries, ChainOf(h, entries).transcript, ChainOf(h, entries).root)
  {
    ContiguousIff(entries);
    var ordered := Sort(entries, ByPosition);
    SortMembers(entries, ByPosition);
    var t := Transcript(h, ordered);
    forall i: nat | i < |t| ensures LinksSome(h, entries, t, i) {
      TranscriptLinks(h, ordered, i);
      assert ordered[i] in ordered;
    }
  }

  /** What chaining a journal gives. */
  ghost predicate ChainsTo(h: Hasher, entries: seq<Entry>, c: Chain) {
    if entries == [] then c == Refused(EmptyJournal)
    else if !Covers(entries) then c == Refused(NotContiguous)
    else c.Built? && Chained(h, entries, c.transcript, c.root)
  }

  lemma ChainMeans(h: Hasher, entries: seq<Entry>)
    ensures ChainsTo(h, entries, ChainOf(h, entries))
  {
    ContiguousIff(entries);
    if entries != [] && Covers(entries) {
      OrderedChained(h, entries);
    }
  }

  /** Compares the observed positions with 1, 2, ..., last position. */
  method CheckContiguous(ordered: seq<Entry>) returns (ok: bool)
    requires ordered != []
    ensures ok <==> Contiguous(ordered)
  {
    if |ordered| != ordered[|ordered| - 1].position {
      assert ordered[|ordered| - 1].position != (|ordered| - 1) + 1;
      return false;
    }
    for i := 0 to |ordered|
      invariant forall j :: 0 <= j < i ==> ordered[j].position == j + 1
    {
      if ordered[i].position != i + 1 {
        return false;
      }
    }
    ok := true;
  }

  /** The chaining loop: each digest covers the previous digest and the entry's row. */
  method ChainLoop(h: Hasher, ordered: seq<Entry>) returns (previous: string, transcript: seq<Link>)
    ensures transcript == Transcript(h, ordered) && previous == Root(h, ordered)
  {
    previous, transcript := Genesis, [];
    for i := 0 to |ordered|
      invariant transcript == Transcript(h, ordered[..i])
      invariant previous == Root(h, ordered[..i])
    {
      assert ordered[..i + 1][..i] == ordered[..i];
      var row := RowOf(h, ordered[i]);
      var digest := h.sha(previous + h.rowJson(row));
      transcript := transcript + [Link(row, previous, digest)];
      previous := digest;
    }
    assert ordered[..|ordered|] == ordered;
  }

  /** `authority_chain`: sort, insist on positions 1, 2, ..., n, then chain the entries one by one. */
  method AuthorityChain(h: Hasher, entries: seq<Entry>) returns (c: Chain)
    ensures c == ChainOf(h, entries)
    ensures ChainsTo(h, entries, c)
  {
    ChainMeans(h, entries);
    var ordered := Sort(entries, ByPosition);
    if |ordered| == 0 {
      return Refused(EmptyJournal);
    }
    var ok := CheckContiguous(ordered);
    if !ok {
      return Refused(NotContiguous);
    }
    var root, transcript := ChainLoop(h, ordered);
    c := Built(root, transcript);
  }

  lemma RootStep(h: Hasher, ordered: seq<Entry>)
    requires ordered != []
    ensures var n := |ordered| - 1;
            Root(h, ordered) == h.sha(Root(h, ordered[..n]) + h.rowJson(RowOf(h, ordered[n])))
  {
  }

  lemma RootLength(h: Hasher, ordered: seq<Entry>)
    requires Lawful(h)
    ensures |Root(h, ordered)| == DigestLength
  {
    if ordered != [] {
      RootStep(h, ordered);
    }
  }

  lemma SplitAt(a: string, b: string, c: string, d: string)
    requires |a| == |c| && a + b == c + d
    ensures a == c && b == d
  {
    assert a == (a + b)[..|a|] && c == (c + d)[..|c|];
    assert b == (a + b)[|a|..] && d == (c + d)[|c|..];
  }

  /**
   Two non-empty contiguous journals with the same chain root are identical, length included, or their hashing contains
   an explicit collision.
   */
  lemma {:induction false} SameRootSameJournal(h: Hasher, a: seq<Entry>, b: seq<Entry>)
    returns (x: string, y: string)
    requires Lawful(h) && Contiguous(a) && Contiguous(b) && a != [] && b != []
    requires Root(h, a) == Root(h, b)
    ensures a == b || Collision(h, x, y)
    decreases |a|
  {
    var fa, la, fb, lb := a[..|a| - 1], a[|a| - 1], b[..|b| - 1], b[|b| - 1];
    RootStep(h, a);
    RootStep(h, b);
    var same;
    same, x, y := SameLast(h, fa, la, fb, lb);
    if same {
      LastPosition(a);
      LastPosition(b);
      if fa != [] {
        x, y := SameRootSameJournal(h, fa, fb);
      }
    }
  }

  lemma LastPosition(s: seq<Entry>)
    requires Contiguous(s) && s != []
    ensures var n := |s| - 1; s[n].position == |s| && Contiguous(s[..n]) && s == s[..n] + [s[n]]
  {
  }

  /** Equal digests of a last entry mean equal entries behind equal roots, or a collision. */
  lemma {:induction false} SameLast(h: Hasher, a: seq<Entry>, d: Entry, b: seq<Entry>, e: Entry)
    returns (same: bool, x: string, y: string)
    requires Lawful(h)
    ensures var da, db := h.sha(Root(h, a) + h.rowJson(RowOf(h, d))), h.sha(Root(h, b) + h.rowJson(RowOf(h, e)));
            da == db ==> if same then d == e && Root(h, a) == Root(h, b) else Collision(h, x, y)
  {
    var ra, rb := RowOf(h, d), RowOf(h, e);
    var pa, pb := Root(h, a), Root(h, b);
    x, y := pa + h.rowJson(ra), pb + h.rowJson(rb);
    same := x == y;
    if same {
      RootLength(h, a);
      RootLength(h, b);
      SplitAt(pa, h.rowJson(ra), pb, h.rowJson(rb));
      assert ra == rb;
      x, y := h.payloadJson(d.payload), h.payloadJson(e.payload);
      same := x == y;
    }
  }

  // ---- Checkpoints ----

  datatype Checkpoint = Checkpoint(head: int, entryCount: int, root: string, transcriptSha: string)

  /** The chain part of `create`: an invalid journal raises. */
  function Create(h: Hasher, entries: seq<Entry>): Option<Checkpoint> {
    var c := ChainOf(h, entries);
    var ordered := Sort(entries, ByPosition);
    if c.Refused? then None
    else
      assert ordered != [];
      Some(Checkpoint(ordered[|ordered| - 1].position, |ordered|, c.root, h.sha(h.transcriptJson(c.transcript))))
  }

  /** A checkpoint exists exactly for a journal that chains; it holds its length twice, its root and its transcript's digest. */
  lemma CreateMeans(h: Hasher, entries: seq<Entry>)
    ensures Create(h, entries).Some? <==> entries != [] && Covers(entries)
    ensures Create(h, entries).Some? ==>
              var cp, c := Create(h, entries).value, ChainOf(h, entries);
              && cp.head == |entries| && cp.entryCount == |entries|
              && Chained(h, entries, c.transcript, cp.root)
              && cp.transcriptSha == h.sha(h.transcriptJson(c.transcript))
  {
    ChainMeans(h, entries);
    ContiguousIff(entries);
  }

  datatype Failure = PrefixTruncated | PrefixSubstituted | TranscriptMismatch | PrefixInvalid(error: ChainError)

  function UpTo(s: seq<Entry>, head: int): (r: seq<Entry>) {
    if s == [] then []
    else
      var front, last := UpTo(s[..|s| - 1], head), s[|s| - 1];
      if last.position <= head then front + [last] else front
  }

  /** What does not match in a prefix that chains. */
  function Mismatches(h: Hasher, cp: Checkpoint, count: nat, root: string, transcript: seq<Link>): seq<Failure> {
    (if count != cp.entryCount then [PrefixTruncated] else []) +
    (if root != cp.root then [PrefixSubstituted] else []) +
    (if h.sha(h.transcriptJson(transcript)) != cp.transcriptSha then [TranscriptMismatch] else [])
  }

  function Failures(h: Hasher, cp: Checkpoint, entries: seq<Entry>): seq<Failure> {
    var prefix := UpTo(Sort(entries, ByPosition), cp.head);
    var c := ChainOf(h, prefix);
    if c.Refused? then [PrefixInvalid(c.error)] else Mismatches(h, cp, |prefix|, c.root, c.transcript)
  }

  /** `prefix` holds the entries up to position `head`, as often as `entries` does. */
  ghost predicate PrefixOf(prefix: seq<Entry>, entries: seq<Entry>, head: int) {
    forall e :: multiset(prefix)[e] == if e.position <= head then multiset(entries)[e] else 0
  }

  lemma {:induction false} UpToCounts(s: seq<Entry>, head: int)
    ensures PrefixOf(UpTo(s, head), s, head)
  {
    if s != [] {
      UpToCounts(s[..|s| - 1], head);
      assert s == s[..|s| - 1] + [s[|s| - 1]];
    }
  }

  /** What the check of a checkpoint against the entries up to its head must report. */
  ghost predicate Reports(h: Hasher, cp: Checkpoint, prefix: seq<Entry>, failures: seq<Failure>) {
    if prefix == [] then failures == [PrefixInvalid(EmptyJournal)]
    else if !Covers(prefix) then failures == [PrefixInvalid(NotContiguous)]
    else
      exists t, root ::
        && Chained(h, prefix, t, root)
        && (PrefixTruncated in failures <==> |prefix| != cp.entryCount)
        && (PrefixSubstituted in failures <==> root != cp.root)
        && (TranscriptMismatch in failures <==> h.sha(h.transcriptJson(t)) != cp.transcriptSha)
        && forall f :: f in failures ==> !f.PrefixInvalid?
  }

  lemma MismatchMembers(h: Hasher, cp: Checkpoint, count: nat, root: string, t: seq<Link>)
    ensures var failures := Mismatches(h, cp, count, root, t);
            && (PrefixTruncated in failures <==> count != cp.entryCount)
            && (PrefixSubstituted in failures <==> root != cp.root)
            && (TranscriptMismatch in failures <==> h.sha(h.transcriptJson(t)) != cp.transcriptSha)
            && forall f :: f in failures ==> !f.PrefixInvalid?
  {
    var a := if count != cp.entryCount then [PrefixTruncated] else [];
    var b := if root != cp.root then [PrefixSubstituted] else [];
    var c := if h.sha(h.transcriptJson(t)) != cp.transcriptSha then [TranscriptMismatch] else [];
    assert forall f :: f in a + b + c <==> f in a || f in b || f in c;
  }

  /** The check reports on the presented entries up to the checkpoint's head and nothing else. */
  lemma FailuresMean(h: Hasher, cp: Checkpoint, entries: seq<Entry>) returns (prefix: seq<Entry>)
    ensures PrefixOf(prefix, entries, cp.head) && Reports(h, cp, prefix, Failures(h, cp, entries))
  {
    prefix := UpTo(Sort(entries, ByPosition), cp.head);
    UpToCounts(Sort(entries, ByPosition), cp.head);
    ChainMeans(h, prefix);
    var c := ChainOf(h, prefix);
    if c.Built? {
      MismatchMembers(h, cp, |prefix|, c.root, c.transcript);
      assert Chained(h, prefix, c.transcript, c.root);
    }
  }

  method ListMismatches(h: Hasher, cp: Checkpoint, count: nat, root: string, transcript: seq<Link>)
    returns (failures: seq<Failure>)
    ensures failures == Mismatches(h, cp, count, root, transcript)
  {
    failures := [];
    if count != cp.entryCount {
      failures := failures + [PrefixTruncated];
    }
    if root != cp.root {
      failures := failures + [PrefixSubstituted];
    }
    if h.sha(h.transcriptJson(transcript)) != cp.transcriptSha {
      failures := failures + [TranscriptMismatch];
    }
  }

  /** The entries up to the checkpoint's head. */
  method TakeUpTo(ordered: seq<Entry>, head: int) returns (prefix: seq<Entry>)
    ensures prefix == UpTo(ordered, head)
  {
    prefix := [];
    for i := 0 to |ordered|
      invariant prefix == UpTo(ordered[..i], head)
    {
      assert ordered[..i + 1][..i] == ordered[..i];
      if ordered[i].position <= head {
        prefix := prefix + [ordered[i]];
      }
    }
    assert ordered[..|ordered|] == ordered;
  }

  /** The chain part of `verify`. */
  method VerifyChain(h: Hasher, cp: Checkpoint, entries: seq<Entry>)
    returns (valid: bool, failures: seq<Failure>, ghost prefix: seq<Entry>)
    ensures failures == Failures(h, cp, entries)
    ensures PrefixOf(prefix, entries, cp.head) && Reports(h, cp, prefix, failures)
    ensures valid <==> failures == []
  {
    prefix := FailuresMean(h, cp, entries);
    var taken := TakeUpTo(Sort(entries, ByPosition), cp.head);
    var c := AuthorityChain(h, taken);
    if c.Refused? {
      valid, failures := false, [PrefixInvalid(c.error)];
      return;
    }
    failures := ListMismatches(h, cp, |taken|, c.root, c.transcript);
    valid := failures == [];
  }

  // ---- Order of presentation does not matter ----

  /** The last entry of a sorted arrangement is the journal's last entry. */
  lemma LastEntry(a: seq<Entry>, c: seq<Entry>)
    requires c != [] && |a| == |c| && Contiguous(c) && (forall x :: x in a <==> x in c)
    requires forall i, j :: 0 <= i < j < |a| ==> a[i].position <= a[j].position
    ensures a[|c| - 1] == c[|c| - 1]
  {
    var n := |c| - 1;
    assert c[n] in a;
    var k :| 0 <= k < |a| && a[k] == c[n];
    assert a[n] in c;
    var j :| 0 <= j < |c| && c[j] == a[n];
  }

  lemma {:induction false} SortedUnique(a: seq<Entry>, c: seq<Entry>)
    requires multiset(a) == multiset(c) && Contiguous(c)
    requires forall i, j :: 0 <= i < j < |a| ==> a[i].position <= a[j].position
    ensures a == c
    decreases |c|
  {
    SamePermutationMembers(a, c);
    if c != [] {
      var n := |c| - 1;
      LastEntry(a, c);
      FrontPermutation(a, c);
      SortedUnique(a[..n], c[..n]);
      assert a == a[..n] + [a[n]] && c == c[..n] + [c[n]];
    }
  }

  /** Sorting any arrangement of a contiguous journal recovers it. */
  lemma SortRecovers(entries: seq<Entry>, journal: seq<Entry>)
    requires multiset(entries) == multiset(journal) && Contiguous(journal)
    ensures Sort(entries, ByPosition) == journal
  {
    var le := ByPosition;
    SortSorted(entries, le);
    var sorted := Sort(entries, le);
    forall i, j | 0 <= i < j < |sorted| ensures sorted[i].position <= sorted[j].position {
      assert le(sorted[i], sorted[j]);
    }
    SortedUnique(sorted, journal);
  }

  lemma {:induction false} UpToContiguous(journal: seq<Entry>, head: nat)
    requires Contiguous(journal)
    ensures UpTo(journal, head) == if head <= |journal| then journal[..head] else journal
  {
    if journal != [] {
      var n := |journal| - 1;
      var front := journal[..n];
      assert journal[n].position == n + 1 && journal == front + [journal[n]];
      UpToContiguous(front, head);
      if head <= n {
        assert front[..head] == journal[..head];
      } else {
        assert journal[..n + 1] == journal;
      }
    }
  }

  /**
   A checkpoint's chain check still passes on every contiguous extension of its journal, presented in any order.
   */
  lemma CheckpointSurvivesExtension(h: Hasher, journal: seq<Entry>, given: seq<Entry>,
                                             extended: seq<Entry>, presented: seq<Entry>)
    requires journal != [] && Contiguous(journal) && Contiguous(extended) && journal <= extended
    requires multiset(given) == multiset(journal) && multiset(presented) == multiset(extended)
    ensures Create(h, given).Some?
    ensures Failures(h, Create(h, given).value, presented) == []
  {
    SortRecovers(given, journal);
    SortRecovers(presented, extended);
    var cp := Create(h, given).value;
    assert cp.head == |journal|;
    UpToContiguous(extended, |journal|);
    assert UpTo(extended, cp.head) == journal;
    SortRecovers(journal, journal);
  }

  /**
   Conversely, whatever entries pass a checkpoint's chain check, those up to its head are, once ordered, exactly the
   journal it was created from, or hashing exhibits an explicit collision.
   */
  lemma PassingCheckMeansSameJournal(h: Hasher, given: seq<Entry>, presented: seq<Entry>)
    returns (x: string, y: string)
    requires Lawful(h) && Create(h, given).Some?
    requires Failures(h, Create(h, given).value, presented) == []
    ensures var cp := Create(h, given).value;
            Sort(UpTo(Sort(presented, ByPosition), cp.head), ByPosition) == Sort(given, ByPosition) || Collision(h, x, y)
  {
    var cp := Create(h, given).value;
    var prefix := UpTo(Sort(presented, ByPosition), cp.head);
    x, y := SameRootSameJournal(h, Sort(prefix, ByPosition), Sort(given, ByPosition));
  }
}
