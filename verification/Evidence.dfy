/**
 Evidence families: each ingested item joins the family of the first stored item it matches, or founds one named after its
 own seed. The store is kept in the order in which it is read back, by reception time and evidence id.
 */
module Evidence {
  import opened Basics
  import opened Trimming
  import Sorting

  type Id = nat

  /** Family ids are name-based: equal exactly when the incident and the seed are. */
  datatype Seed = ParentSeed(id: Id) | PhashSeed(hash: string) | OriginSeed(origin: string) | DigestSeed(digest: string)
  datatype Family = Family(incident: Id, seed: Seed)

  datatype Item = Item(
    id: Id,
    incident: Id,
    digest: string,
    phash: Option<string>,
    origin: string,
    parent: Option<Id>,
    receivedAt: int,
    independent: bool)

  datatype Stored = Stored(item: Item, family: Family)

  // ---- Matching ----

  predicate Blank(c: char) {
    c == ' ' || '\t' <= c <= '\r' || '\U{1C}' <= c <= '\U{1F}'
  }

  function Lower(s: string): string {
    seq(|s|, i requires 0 <= i < |s| => if 'A' <= s[i] <= 'Z' then s[i] - 'A' + 'a' else s[i])
  }

  /** `strip().lower()` on ASCII text. */
  function Normal(origin: string): string {
    Lower(Strip(origin, Blank))
  }

  predicate HasPhash(x: Item) {
    x.phash.Some? && x.phash.value != ""
  }

  function SeedOf(x: Item): Seed {
    if x.parent.Some? then ParentSeed(x.parent.value)
    else if HasPhash(x) then PhashSeed(x.phash.value)
    else if x.origin != "" then OriginSeed(Normal(x.origin))
    else DigestSeed(x.digest)
  }

  /** The four tests of the ingest loop. */
  predicate Match(prior: Item, x: Item) {
    || prior.digest == x.digest
    || (HasPhash(prior) && HasPhash(x) && prior.phash == x.phash)
    || Normal(prior.origin) == Normal(x.origin)
    || x.parent == Some(prior.id)
    || prior.parent == Some(x.id)
  }

  // ---- Matching, spelled out ----

  /** ASCII white space: space, tab, newline, vertical tab, form feed, carriage return and the four separators. */
  ghost predicate White(c: char) {
    || c == '\U{20}' || c == '\U{09}' || c == '\U{0A}' || c == '\U{0B}' || c == '\U{0C}' || c == '\U{0D}'
    || c == '\U{1C}' || c == '\U{1D}' || c == '\U{1E}' || c == '\U{1F}'
  }

  /** `s[i..j]` is `s` without the white space at its ends. */
  ghost predicate TrimsWhite(s: string, i: nat, j: nat) {
    && i <= j <= |s|
    && (forall k :: 0 <= k < i ==> White(s[k]))
    && (forall k :: j <= k < |s| ==> White(s[k]))
    && (i < j ==> !White(s[i]) && !White(s[j - 1]))
  }

  lemma BlankIff(s: string, i: nat, j: nat)
    ensures Trims(s, Blank, i, j) <==> TrimsWhite(s, i, j)
  {
    assert forall c :: Blank(c) <==> White(c);
  }

  /** The same letter up to case, or the same character. */
  ghost predicate SameLetter(a: char, b: char) {
    || a == b
    || ('A' <= a <= 'Z' && b as int == a as int + 32)
    || ('A' <= b <= 'Z' && a as int == b as int + 32)
  }

  lemma LowerAlike(a: string, b: string)
    ensures Lower(a) == Lower(b) <==> |a| == |b| && forall k :: 0 <= k < |a| ==> SameLetter(a[k], b[k])
  {
    if Lower(a) == Lower(b) {
      assert |a| == |Lower(a)| == |Lower(b)| == |b|;
      forall k | 0 <= k < |a| ensures SameLetter(a[k], b[k]) {
        assert Lower(a)[k] == Lower(b)[k];
      }
    }
    if |a| == |b| && forall k :: 0 <= k < |a| ==> SameLetter(a[k], b[k]) {
      forall k | 0 <= k < |a| ensures Lower(a)[k] == Lower(b)[k] {
        assert SameLetter(a[k], b[k]);
      }
      assert Lower(a) == Lower(b);
    }
  }

  /** The origins are the same up to case and the white space around them. */
  ghost predicate SameOrigin(a: string, b: string) {
    exists i: nat, j: nat, k: nat, l: nat :: TrimsWhite(a, i, j) && TrimsWhite(b, k, l) && Spell(a[i..j], b[k..l])
  }

  ghost predicate Spell(a: string, b: string) {
    |a| == |b| && forall k :: 0 <= k < |a| ==> SameLetter(a[k], b[k])
  }

  lemma NormalIff(a: string, b: string)
    ensures Normal(a) == Normal(b) <==> SameOrigin(a, b)
  {
    var i, j := StripTrims(a, Blank);
    var k, l := StripTrims(b, Blank);
    BlankIff(a, i, j);
    BlankIff(b, k, l);
    LowerAlike(Strip(a, Blank), Strip(b, Blank));
    if SameOrigin(a, b) {
      var i': nat, j': nat, k': nat, l': nat :| TrimsWhite(a, i', j') && TrimsWhite(b, k', l') && Spell(a[i'..j'], b[k'..l']);
      BlankIff(a, i', j');
      BlankIff(b, k', l');
      StripIs(a, Blank, i', j');
      StripIs(b, Blank, k', l');
    }
    if Normal(a) == Normal(b) {
      assert Spell(a[i..j], b[k..l]);
    }
  }

  /** The same content, the same non-empty hash, the same origin, or one is the other's parent. */
  ghost predicate Resembles(a: Item, b: Item) {
    || a.digest == b.digest
    || (a.phash.Some? && b.phash.Some? && a.phash.value == b.phash.value && a.phash.value != "")
    || SameOrigin(a.origin, b.origin)
    || b.parent == Some(a.id)
    || a.parent == Some(b.id)
  }

  lemma MatchIff(prior: Item, x: Item)
    ensures Match(prior, x) <==> Resembles(prior, x)
  {
    NormalIff(prior.origin, x.origin);
  }

  /** It has no parent and no hash, but an origin. */
  ghost predicate OnlyOrigin(x: Item) {
    x.parent == None && (x.phash == None || x.phash.value == "") && x.origin != ""
  }

  /** A family is named after the parent, else the non-empty hash, else the origin if there is one, else the content. */
  lemma SeedMeans(x: Item, y: Item)
    ensures x.parent.Some? ==> SeedOf(x) == ParentSeed(x.parent.value)
    ensures x.parent == None && x.phash.Some? && x.phash.value != "" ==> SeedOf(x) == PhashSeed(x.phash.value)
    ensures x.parent == None && (x.phash == None || x.phash.value == "") && x.origin == "" ==> SeedOf(x) == DigestSeed(x.digest)
    ensures OnlyOrigin(x) ==> SeedOf(x).OriginSeed?
    ensures OnlyOrigin(x) && OnlyOrigin(y) ==> (SeedOf(x) == SeedOf(y) <==> SameOrigin(x.origin, y.origin))
  {
    NormalIff(x.origin, y.origin);
  }

  /** Related items of one incident: they match, or they name the same parent. */
  ghost predicate Linked(a: Item, b: Item) {
    a.incident == b.incident && (Match(a, b) || (a.parent.Some? && a.parent == b.parent))
  }

  lemma LinkedSymmetric(a: Item, b: Item)
    ensures Linked(a, b) <==> Linked(b, a)
  {
  }

  // ---- Ingest ----

  /** The first item of the incident that matches. */
  function FirstMatch(store: seq<Stored>, x: Item): (r: Option<Stored>)
    ensures r.Some? ==> r.value in store && r.value.item.incident == x.incident && Match(r.value.item, x)
    ensures r.None? ==> forall y :: y in store && y.item.incident == x.incident ==> !Match(y.item, x)
  {
    if store == [] then None
    else if store[0].item.incident == x.incident && Match(store[0].item, x) then Some(store[0])
    else FirstMatch(store[1..], x)
  }

  function FamilyFor(store: seq<Stored>, x: Item): Family {
    var first := FirstMatch(store, x);
    if first.Some? then first.value.family else Family(x.incident, SeedOf(x))
  }

  /** The k-th stored item is the first of the incident that resembles `x`. */
  ghost predicate FirstResembling(store: seq<Stored>, x: Item, k: nat) {
    && k < |store| && store[k].item.incident == x.incident && Resembles(store[k].item, x)
    && forall j :: 0 <= j < k && store[j].item.incident == x.incident ==> !Resembles(store[j].item, x)
  }

  lemma {:induction false} FirstMatchMeans(store: seq<Stored>, x: Item)
    ensures forall k: nat :: FirstResembling(store, x, k) ==> FirstMatch(store, x) == Some(store[k])
    ensures (exists k: nat :: FirstResembling(store, x, k)) || FirstMatch(store, x) == None
  {
    if store != [] {
      MatchIff(store[0].item, x);
      FirstMatchMeans(store[1..], x);
      if store[0].item.incident == x.incident && Resembles(store[0].item, x) {
        assert FirstResembling(store, x, 0);
      } else {
        FirstMatchBehind(store, x);
      }
    }
  }

  lemma FirstMatchBehind(store: seq<Stored>, x: Item)
    requires store != [] && !(store[0].item.incident == x.incident && Resembles(store[0].item, x))
    ensures forall k: nat :: FirstResembling(store, x, k) ==> k > 0 && FirstResembling(store[1..], x, k - 1)
    ensures forall k: nat :: FirstResembling(store[1..], x, k) ==> FirstResembling(store, x, k + 1)
  {
    var rest := store[1..];
    forall k: nat | FirstResembling(store, x, k) ensures k > 0 && FirstResembling(rest, x, k - 1) {
      assert forall j :: 0 <= j < |rest| ==> rest[j] == store[j + 1];
    }
    forall k: nat | FirstResembling(rest, x, k) ensures FirstResembling(store, x, k + 1) {
      assert forall j :: 0 < j < |store| ==> store[j] == rest[j - 1];
    }
  }

  /** The order in which the store is read back. */
  predicate ReadBefore(a: Item, b: Item) {
    a.receivedAt < b.receivedAt || (a.receivedAt == b.receivedAt && a.id <= b.id)
  }

  const Earlier: (Stored, Stored) -> bool := (a: Stored, b: Stored) => ReadBefore(a.item, b.item)

  /** The loop over the stored items of the incident. */
  method AssignFamily(store: seq<Stored>, x: Item) returns (f: Family)
    ensures f == FamilyFor(store, x)
    ensures forall k: nat :: FirstResembling(store, x, k) ==> f == store[k].family
    ensures (exists k: nat :: FirstResembling(store, x, k)) || f == Family(x.incident, SeedOf(x))
  {
    FirstMatchMeans(store, x);
    var family: Option<Family> := None;
    var k := 0;
    assert store[0..] == store;
    while k < |store|
      invariant 0 <= k <= |store|
      invariant family.None? && FirstMatch(store, x) == FirstMatch(store[k..], x)
    {
      var prior := store[k];
      assert store[k..][0] == prior && store[k..][1..] == store[k + 1..];
      if prior.item.incident == x.incident {
        var exact := prior.item.digest == x.digest;
        var near := HasPhash(prior.item) && HasPhash(x) && prior.item.phash == x.phash;
        var sameOrigin := Normal(prior.item.origin) == Normal(x.origin);
        var parentMatch := x.parent == Some(prior.item.id) || prior.item.parent == Some(x.id);
        if exact || near || sameOrigin || parentMatch {
          family := Some(prior.family);
          break;
        }
      }
      k := k + 1;
    }
    f := if family.Some? then family.value else Family(x.incident, SeedOf(x));
  }

  datatype IngestResult = Recorded(stored: Stored) | Refused | IdentityConflict

  ghost predicate DistinctIds(store: seq<Stored>) {
    forall i, j :: 0 <= i < j < |store| ==> store[i].item.id != store[j].item.id
  }

  predicate Known(store: seq<Stored>, id: Id) {
    exists y :: y in store && y.item.id == id
  }

  /** What ingesting `x` leaves in the store. An id already present is never written again. */
  function AfterIngest(store: seq<Stored>, x: Item): seq<Stored> {
    if Known(store, x.id) then store else Sorting.Insert(Stored(x, FamilyFor(store, x)), store, Earlier)
  }

  lemma {:induction false} InsertDistinct(y: Stored, store: seq<Stored>)
    requires DistinctIds(store) && !Known(store, y.item.id)
    ensures DistinctIds(Sorting.Insert(y, store, Earlier))
    ensures forall z :: z in Sorting.Insert(y, store, Earlier) <==> z in store || z == y
  {
    if store != [] && !Earlier(store[|store| - 1], y) {
      var front, last := store[..|store| - 1], store[|store| - 1];
      assert forall z :: z in front ==> z in store;
      assert last in store;
      InsertDistinct(y, front);
      var r := Sorting.Insert(y, front, Earlier);
      forall i | 0 <= i < |r| ensures r[i].item.id != last.item.id {
        assert r[i] in r;
      }
      assert store == front + [last];
    } else {
      forall i | 0 <= i < |store| ensures store[i].item.id != y.item.id {
        assert store[i] in store;
      }
    }
  }

  class EvidenceStore {
    var rows: seq<Stored>

    /** `ingest`; `admissible` is the consent and incident check in front of it. */
    method Ingest(x: Item, admissible: bool) returns (r: IngestResult)
      requires DistinctIds(rows)
      modifies this
      ensures DistinctIds(rows)
      ensures r.Refused? <==> !admissible
      ensures rows == if admissible then AfterIngest(old(rows), x) else old(rows)
      ensures r.Recorded? ==> r.stored == Stored(x, FamilyFor(old(rows), x)) && r.stored in rows
      ensures r.IdentityConflict? <==>
                admissible && exists y :: y in old(rows) && y.item.id == x.id && y != Stored(x, FamilyFor(old(rows), x))
    {
      if !admissible {
        return Refused;
      }
      var family := AssignFamily(rows, x);
      var row := Stored(x, family);
      for k := 0 to |rows|
        invariant forall j :: 0 <= j < k ==> rows[j].item.id != x.id
        invariant rows == old(rows)
      {
        if rows[k].item.id == x.id {
          assert rows[k] in rows;
          if rows[k] != row {
            return IdentityConflict;
          }
          return Recorded(rows[k]);
        }
      }
      assert !Known(rows, x.id);
      InsertDistinct(row, rows);
      rows := Sorting.Insert(row, rows, Earlier);
      assert row in multiset(rows);
      return Recorded(row);
    }
  }

  // ---- Connected components ----

  ghost function Rows(store: seq<Stored>): set<Stored> {
    set y | y in store
  }

  ghost predicate Path(es: set<Stored>, p: seq<Stored>) {
    && p != []
    && (forall i :: 0 <= i < |p| ==> p[i] in es)
    && (forall i :: 0 < i < |p| ==> Linked(p[i - 1].item, p[i].item))
  }

  ghost predicate Connected(es: set<Stored>, a: Stored, b: Stored) {
    exists p :: Path(es, p) && p[0] == a && p[|p| - 1] == b
  }

  lemma ConnectedSelf(es: set<Stored>, a: Stored)
    requires a in es
    ensures Connected(es, a, a)
  {
    assert Path(es, [a]);
  }

  lemma ConnectedLink(es: set<Stored>, a: Stored, b: Stored)
    requires a in es && b in es && Linked(a.item, b.item)
    ensures Connected(es, a, b)
  {
    assert Path(es, [a, b]);
  }

  lemma ConnectedBack(es: set<Stored>, a: Stored, b: Stored)
    requires Connected(es, a, b)
    ensures Connected(es, b, a)
  {
    var p: seq<Stored> :| Path(es, p) && p[0] == a && p[|p| - 1] == b;
    var n := |p|;
    var q := seq(n, i requires 0 <= i < n => p[n - 1 - i]);
    forall i | 0 < i < n ensures Linked(q[i - 1].item, q[i].item) {
      LinkedSymmetric(p[n - 1 - i].item, p[n - i].item);
      assert Linked(p[(n - i) - 1].item, p[n - i].item);
    }
    assert Path(es, q);
  }

  lemma ConnectedJoin(es: set<Stored>, a: Stored, b: Stored, c: Stored)
    requires Connected(es, a, b) && Connected(es, b, c)
    ensures Connected(es, a, c)
  {
    var p: seq<Stored> :| Path(es, p) && p[0] == a && p[|p| - 1] == b;
    var q: seq<Stored> :| Path(es, q) && q[0] == b && q[|q| - 1] == c;
    var r := p + q[1..];
    forall i | 0 < i < |r| ensures Linked(r[i - 1].item, r[i].item) {
      if i >= |p| {
        var j := i - |p| + 1;
        assert r[i] == q[j] && r[i - 1] == q[j - 1];
        assert Linked(q[j - 1].item, q[j].item);
      }
    }
    assert Path(es, r);
  }

  lemma ConnectedGrows(es: set<Stored>, more: set<Stored>, a: Stored, b: Stored)
    requires es <= more && Connected(es, a, b)
    ensures Connected(more, a, b)
  {
    var p: seq<Stored> :| Path(es, p) && p[0] == a && p[|p| - 1] == b;
    assert Path(more, p);
  }

  // ---- Each family lies in one component ----

  /** Every family is named after the seed of one of its members. */
  ghost predicate Founded(es: set<Stored>) {
    forall y {:trigger HasFounder(es, y.family)} :: y in es ==> HasFounder(es, y.family)
  }

  ghost predicate HasFounder(es: set<Stored>, f: Family) {
    exists g :: g in es && Founder(g, f)
  }

  ghost predicate Founder(g: Stored, f: Family) {
    g.family == f && f == Family(g.item.incident, SeedOf(g.item))
  }

  ghost predicate FamiliesConnected(es: set<Stored>) {
    forall a, b :: a in es && b in es && a.family == b.family ==> Connected(es, a, b)
  }

  ghost predicate OwnIncident(es: set<Stored>) {
    forall y :: y in es ==> y.family.incident == y.item.incident
  }

  ghost predicate WellGrouped(es: set<Stored>) {
    Founded(es) && FamiliesConnected(es) && OwnIncident(es)
  }

  /** Items of one incident with equal seeds are linked; unless the seed is a parent they match outright. */
  lemma EqualSeedsLink(a: Item, b: Item)
    requires a.incident == b.incident && SeedOf(a) == SeedOf(b)
    ensures Linked(a, b)
  {
  }

  /** The stored item through which a new one enters an existing family. */
  lemma LinkIntoFamily(store: seq<Stored>, x: Item, z: Stored) returns (g: Stored)
    requires WellGrouped(Rows(store)) && z in store && z.family == FamilyFor(store, x)
    ensures g in store && g.family == z.family && Linked(x, g.item)
  {
    var first := FirstMatch(store, x);
    if first.Some? {
      g := first.value;
      LinkedSymmetric(g.item, x);
    } else {
      assert z in Rows(store);
      assert HasFounder(Rows(store), z.family);
      g :| g in Rows(store) && Founder(g, z.family);
      EqualSeedsLink(x, g.item);
    }
  }

  lemma NewRowConnected(store: seq<Stored>, x: Item, z: Stored, es: set<Stored>)
    requires WellGrouped(Rows(store)) && z in store && z.family == FamilyFor(store, x)
    requires es == Rows(store) + {Stored(x, FamilyFor(store, x))}
    ensures Connected(es, Stored(x, FamilyFor(store, x)), z) && Connected(es, z, Stored(x, FamilyFor(store, x)))
  {
    var y := Stored(x, FamilyFor(store, x));
    var g := LinkIntoFamily(store, x, z);
    ConnectedLink(es, y, g);
    assert g in Rows(store) && z in Rows(store);
    ConnectedGrows(Rows(store), es, g, z);
    ConnectedJoin(es, y, g, z);
    ConnectedBack(es, y, z);
  }

  lemma FamiliesConnectedAfter(store: seq<Stored>, x: Item, y: Stored, es: set<Stored>)
    requires WellGrouped(Rows(store)) && y == Stored(x, FamilyFor(store, x)) && es == Rows(store) + {y}
    ensures FamiliesConnected(es)
  {
    var before := Rows(store);
    forall a, b | a in es && b in es && a.family == b.family ensures Connected(es, a, b) {
      if a == b {
        ConnectedSelf(es, a);
      } else if a == y {
        NewRowConnected(store, x, b, es);
      } else if b == y {
        NewRowConnected(store, x, a, es);
      } else {
        assert a in before && b in before;
        ConnectedGrows(before, es, a, b);
      }
    }
  }

  lemma FounderOf(store: seq<Stored>, x: Item, y: Stored) returns (g: Stored)
    requires WellGrouped(Rows(store)) && y == Stored(x, FamilyFor(store, x))
    ensures g in Rows(store) + {y} && Founder(g, y.family) && y.family.incident == x.incident
  {
    var first := FirstMatch(store, x);
    if first.None? {
      g := y;
    } else {
      assert first.value in Rows(store);
      assert HasFounder(Rows(store), first.value.family);
      g :| g in Rows(store) && Founder(g, first.value.family);
    }
  }

  lemma FoundedWith(es: set<Stored>, y: Stored, h: Stored)
    requires Founded(es) && OwnIncident(es)
    requires h in es + {y} && Founder(h, y.family) && y.family.incident == y.item.incident
    ensures Founded(es + {y}) && OwnIncident(es + {y})
  {
    forall z | z in es + {y} ensures HasFounder(es + {y}, z.family) {
      if z != y {
        assert HasFounder(es, z.family);
        var g :| g in es && Founder(g, z.family);
        assert g in es + {y};
      }
    }
  }

  lemma {:induction false} IngestWellGrouped(store: seq<Stored>, x: Item)
    requires DistinctIds(store) && WellGrouped(Rows(store))
    ensures DistinctIds(AfterIngest(store, x)) && WellGrouped(Rows(AfterIngest(store, x)))
  {
    if !Known(store, x.id) {
      var y := Stored(x, FamilyFor(store, x));
      InsertDistinct(y, store);
      var es := Rows(AfterIngest(store, x));
      assert es == Rows(store) + {y};
      FamiliesConnectedAfter(store, x, y, es);
      var founder := FounderOf(store, x, y);
      FoundedWith(Rows(store), y, founder);
    }
  }

  function StoreOf(arrivals: seq<Item>): seq<Stored> {
    if arrivals == [] then [] else AfterIngest(StoreOf(arrivals[..|arrivals| - 1]), arrivals[|arrivals| - 1])
  }

  /** In every reachable store, items of one family are connected through links. */
  lemma {:induction false} FamiliesAreConnected(arrivals: seq<Item>)
    ensures DistinctIds(StoreOf(arrivals)) && WellGrouped(Rows(StoreOf(arrivals)))
  {
    if arrivals == [] {
      assert Rows([]) == {};
    } else {
      FamiliesAreConnected(arrivals[..|arrivals| - 1]);
      IngestWellGrouped(StoreOf(arrivals[..|arrivals| - 1]), arrivals[|arrivals| - 1]);
    }
  }

  // ---- Families against components ----

  ghost function FamiliesIn(es: set<Stored>, incident: Id): set<Family> {
    set y | y in es && y.item.incident == incident :: y.family
  }

  ghost function Component(es: set<Stored>, a: Stored): set<Stored> {
    set b | b in es && Connected(es, a, b)
  }

  ghost function ComponentsIn(es: set<Stored>, incident: Id): set<set<Stored>> {
    set a | a in es && a.item.incident == incident :: Component(es, a)
  }

  /** The component of some member of `f`. */
  ghost function ComponentOf(es: set<Stored>, f: Family): set<Stored> {
    if a :| a in es && a.family == f then Component(es, a) else {}
  }

  ghost function Image<A, B>(xs: set<A>, g: A -> B): set<B> {
    set x | x in xs :: g(x)
  }

  lemma {:induction false} ImageSize<A, B>(xs: set<A>, g: A -> B)
    ensures |Image(xs, g)| <= |xs|
  {
    if xs != {} {
      var x :| x in xs;
      var rest := xs - {x};
      ImageSize(rest, g);
      assert Image(xs, g) == Image(rest, g) + {g(x)};
    }
  }

  lemma SameComponent(es: set<Stored>, a: Stored, b: Stored)
    requires Connected(es, a, b)
    ensures Component(es, a) == Component(es, b)
  {
    ConnectedBack(es, a, b);
    forall c | c in es ensures Connected(es, a, c) <==> Connected(es, b, c) {
      if Connected(es, a, c) {
        ConnectedJoin(es, b, a, c);
      }
      if Connected(es, b, c) {
        ConnectedJoin(es, a, b, c);
      }
    }
  }

  lemma MemberComponent(es: set<Stored>, a: Stored)
    requires FamiliesConnected(es) && a in es
    ensures ComponentOf(es, a.family) == Component(es, a)
  {
    var b :| b in es && b.family == a.family && ComponentOf(es, a.family) == Component(es, b);
    SameComponent(es, a, b);
  }

  lemma ComponentsAtMost(es: set<Stored>, incident: Id)
    requires FamiliesConnected(es)
    ensures |ComponentsIn(es, incident)| <= |FamiliesIn(es, incident)|
  {
    var g := (f: Family) => ComponentOf(es, f);
    var families := FamiliesIn(es, incident);
    var image := Image(families, g);
    forall c | c in ComponentsIn(es, incident) ensures c in image {
      var a :| a in es && a.item.incident == incident && c == Component(es, a);
      MemberComponent(es, a);
      assert a.family in families && g(a.family) == c;
    }
    SubsetSize(ComponentsIn(es, incident), image);
    ImageSize(families, g);
  }

  /** Grouping never merges unrelated evidence: no incident has fewer families than components. */
  lemma NoFewerFamilies(arrivals: seq<Item>, incident: Id)
    ensures var es := Rows(StoreOf(arrivals));
            |ComponentsIn(es, incident)| <= |FamiliesIn(es, incident)|
  {
    FamiliesAreConnected(arrivals);
    ComponentsAtMost(Rows(StoreOf(arrivals)), incident);
  }

  /** Linked items share a family. */
  ghost predicate LinksAgree(es: set<Stored>) {
    forall a, b :: a in es && b in es && Linked(a.item, b.item) ==> a.family == b.family
  }

  lemma {:induction false} PathAgrees(es: set<Stored>, p: seq<Stored>)
    requires LinksAgree(es) && Path(es, p)
    ensures p[0].family == p[|p| - 1].family
    decreases |p|
  {
    if |p| > 1 {
      var front := p[..|p| - 1];
      assert Path(es, front);
      PathAgrees(es, front);
      assert Linked(p[|p| - 2].item, p[|p| - 1].item);
    }
  }

  ghost predicate FamiliesAreComponents(es: set<Stored>) {
    forall a, b :: a in es && b in es ==> (a.family == b.family <==> Connected(es, a, b))
  }

  lemma ConnectedAgrees(es: set<Stored>, a: Stored, b: Stored)
    requires LinksAgree(es) && Connected(es, a, b)
    ensures a.family == b.family
  {
    var p: seq<Stored> :| Path(es, p) && p[0] == a && p[|p| - 1] == b;
    PathAgrees(es, p);
  }

  lemma ComponentsIffLinksAgree(es: set<Stored>)
    requires FamiliesConnected(es)
    ensures FamiliesAreComponents(es) <==> LinksAgree(es)
  {
    forall a, b | a in es && b in es && Linked(a.item, b.item) ensures Connected(es, a, b) {
      ConnectedLink(es, a, b);
    }
    forall a, b | LinksAgree(es) && Connected(es, a, b) ensures a.family == b.family {
      ConnectedAgrees(es, a, b);
    }
  }

  /** Everything the new item is linked to already is in the family it is about to get. */
  ghost predicate Unambiguous(store: seq<Stored>, x: Item) {
    forall y :: y in store && Linked(x, y.item) ==> y.family == FamilyFor(store, x)
  }

  lemma AgreeAfterIngest(store: seq<Stored>, x: Item)
    requires DistinctIds(store)
    ensures LinksAgree(Rows(AfterIngest(store, x))) <==>
            LinksAgree(Rows(store)) && (Known(store, x.id) || Unambiguous(store, x))
  {
    if !Known(store, x.id) {
      var y := Stored(x, FamilyFor(store, x));
      InsertDistinct(y, store);
      var before, es := Rows(store), Rows(AfterIngest(store, x));
      assert es == before + {y};
      AgreeWithOneMore(before, y);
      assert Unambiguous(store, x) <==> forall z :: z in before && Linked(x, z.item) ==> z.family == y.family;
    }
  }

  lemma AgreeWithOneMore(es: set<Stored>, y: Stored)
    ensures LinksAgree(es + {y}) <==>
            LinksAgree(es) && forall z :: z in es && Linked(y.item, z.item) ==> z.family == y.family
  {
    if LinksAgree(es) && forall z :: z in es && Linked(y.item, z.item) ==> z.family == y.family {
      forall a, b | a in es + {y} && b in es + {y} && Linked(a.item, b.item) ensures a.family == b.family {
        LinkedSymmetric(a.item, b.item);
      }
    }
    if LinksAgree(es + {y}) {
      forall z | z in es && Linked(y.item, z.item) ensures z.family == y.family {
        assert y in es + {y} && z in es + {y};
      }
    }
  }

  ghost predicate AlwaysUnambiguous(arrivals: seq<Item>) {
    arrivals == []
    || (var store, x := StoreOf(arrivals[..|arrivals| - 1]), arrivals[|arrivals| - 1];
        AlwaysUnambiguous(arrivals[..|arrivals| - 1]) && (Known(store, x.id) || Unambiguous(store, x)))
  }

  lemma {:induction false} AgreeIffUnambiguous(arrivals: seq<Item>)
    ensures LinksAgree(Rows(StoreOf(arrivals))) <==> AlwaysUnambiguous(arrivals)
  {
    if arrivals == [] {
      assert Rows([]) == {};
    } else {
      var front := arrivals[..|arrivals| - 1];
      AgreeIffUnambiguous(front);
      FamiliesAreConnected(front);
      AgreeAfterIngest(StoreOf(front), arrivals[|arrivals| - 1]);
    }
  }

  /**
   The families are exactly the connected components if and only if no arrival was ambiguous, a condition on the store and
   the new item that can be checked before each ingest.
   */
  lemma ComponentsIffUnambiguous(arrivals: seq<Item>)
    ensures FamiliesAreComponents(Rows(StoreOf(arrivals))) <==> AlwaysUnambiguous(arrivals)
  {
    FamiliesAreConnected(arrivals);
    ComponentsIffLinksAgree(Rows(StoreOf(arrivals)));
    AgreeIffUnambiguous(arrivals);
  }

  /** Without ambiguous arrivals, ingesting a stored item again finds the family it was stored under. */
  lemma ReingestKeepsFamily(arrivals: seq<Item>, y: Stored)
    requires AlwaysUnambiguous(arrivals) && y in StoreOf(arrivals)
    ensures FamilyFor(StoreOf(arrivals), y.item) == y.family
  {
    AgreeIffUnambiguous(arrivals);
    var store := StoreOf(arrivals);
    var first := FirstMatch(store, y.item);
    assert first.Some?;
    assert first.value in Rows(store) && y in Rows(store);
    assert Linked(first.value.item, y.item);
  }

  // ---- Equal digests ----

  ghost predicate SameContent(a: Item, b: Item) {
    a.incident == b.incident && a.digest == b.digest
  }

  /** Items of one incident with equal digests share a family. */
  ghost predicate DigestsAgree(es: set<Stored>) {
    forall a, b :: a in es && b in es && SameContent(a.item, b.item) ==> a.family == b.family
  }

  /** Every stored copy of the new item's content is in the family it is about to get. */
  ghost predicate CopiesAgree(store: seq<Stored>, x: Item) {
    forall y :: y in store && SameContent(x, y.item) ==> y.family == FamilyFor(store, x)
  }

  lemma DigestsWithOneMore(es: set<Stored>, y: Stored)
    ensures DigestsAgree(es + {y}) <==>
            DigestsAgree(es) && forall z :: z in es && SameContent(y.item, z.item) ==> z.family == y.family
  {
    if DigestsAgree(es + {y}) {
      forall z | z in es && SameContent(y.item, z.item) ensures z.family == y.family {
        assert y in es + {y} && z in es + {y};
      }
    }
  }

  /** An ingest keeps equal digests together if and only if every stored copy is in the family the new item gets. */
  lemma DigestsAfterIngest(store: seq<Stored>, x: Item)
    requires DistinctIds(store)
    ensures DigestsAgree(Rows(AfterIngest(store, x))) <==>
            DigestsAgree(Rows(store)) && (Known(store, x.id) || CopiesAgree(store, x))
  {
    if !Known(store, x.id) {
      var y := Stored(x, FamilyFor(store, x));
      InsertDistinct(y, store);
      assert Rows(AfterIngest(store, x)) == Rows(store) + {y};
      DigestsWithOneMore(Rows(store), y);
      assert CopiesAgree(store, x) <==> forall z :: z in Rows(store) && SameContent(x, z.item) ==> z.family == y.family;
    }
  }

  ghost predicate AlwaysCopiesAgree(arrivals: seq<Item>) {
    arrivals == []
    || (var store, x := StoreOf(arrivals[..|arrivals| - 1]), arrivals[|arrivals| - 1];
        AlwaysCopiesAgree(arrivals[..|arrivals| - 1]) && (Known(store, x.id) || CopiesAgree(store, x)))
  }

  /** Equal digests share a family if and only if that held at every arrival. */
  lemma {:induction false} DigestsAgreeIff(arrivals: seq<Item>)
    ensures DigestsAgree(Rows(StoreOf(arrivals))) <==> AlwaysCopiesAgree(arrivals)
  {
    if arrivals == [] {
      assert Rows([]) == {};
    } else {
      var front := arrivals[..|arrivals| - 1];
      DigestsAgreeIff(front);
      FamiliesAreConnected(front);
      DigestsAfterIngest(StoreOf(front), arrivals[|arrivals| - 1]);
    }
  }

  // ---- Repeated ingests ----

  /** Ingesting any stored item again would find the family it is stored under. */
  ghost predicate Repeatable(store: seq<Stored>) {
    forall y :: y in store ==> FamilyFor(store, y.item) == y.family
  }

  ghost predicate Matches(z: Stored, y: Item) {
    z.item.incident == y.incident && Match(z.item, y)
  }

  /** `x` matches `y` and would be read before every stored match of it. */
  ghost predicate Overtaken(store: seq<Stored>, x: Stored, y: Item) {
    Matches(x, y) && forall z :: z in store && Earlier(z, x) ==> !Matches(z, y)
  }

  /** No stored item of another family is overtaken by the new one. */
  ghost predicate NoneOvertaken(store: seq<Stored>, x: Item) {
    var row := Stored(x, FamilyFor(store, x));
    forall y :: y in store && y.family != row.family ==> !Overtaken(store, row, y.item)
  }

  lemma EarlierTotal()
    ensures Sorting.TotalPreorder(Earlier)
  {
  }

  lemma {:induction false} FirstMatchConcat(a: seq<Stored>, b: seq<Stored>, y: Item)
    ensures FirstMatch(a + b, y) == if FirstMatch(a, y).Some? then FirstMatch(a, y) else FirstMatch(b, y)
  {
    if a == [] {
      assert a + b == b;
    } else {
      assert (a + b)[0] == a[0] && (a + b)[1..] == a[1..] + b;
      FirstMatchConcat(a[1..], b, y);
    }
  }

  lemma {:induction false} FirstMatchBetween(a: seq<Stored>, x: Stored, b: seq<Stored>, y: Item)
    ensures FirstMatch(a + [x] + b, y) ==
            if FirstMatch(a, y).Some? then FirstMatch(a, y) else if Matches(x, y) then Some(x) else FirstMatch(b, y)
  {
    var tail := [x] + b;
    assert a + [x] + b == a + tail;
    FirstMatchConcat(a, tail, y);
    assert tail[0] == x && tail[1..] == b;
  }

  /** The rows read before the new one are exactly those in front of where it goes. */
  lemma FrontIsEarlier(store: seq<Stored>, x: Stored, k: nat)
    requires k <= |store| && forall i :: 0 <= i < |store| ==> (Earlier(store[i], x) <==> i < k)
    ensures forall z :: z in store[..k] <==> z in store && Earlier(z, x)
  {
    forall z | z in store && Earlier(z, x) ensures z in store[..k] {
      var i :| 0 <= i < |store| && store[i] == z;
      assert store[..k][i] == z;
    }
  }

  lemma NoFrontMatch(store: seq<Stored>, x: Stored, front: seq<Stored>, y: Item)
    requires forall z :: z in front <==> z in store && Earlier(z, x)
    ensures Matches(x, y) && FirstMatch(front, y).None? <==> Overtaken(store, x, y)
  {
  }

  /** A new row is the first match of what it overtakes, and changes no other first match. */
  lemma {:induction false} FirstMatchAfter(store: seq<Stored>, x: Stored, y: Item)
    requires Sorting.SortedBy(store, Earlier)
    ensures FirstMatch(Sorting.Insert(x, store, Earlier), y) == if Overtaken(store, x, y) then Some(x) else FirstMatch(store, y)
  {
    EarlierTotal();
    var k := Sorting.InsertSplits(x, store, Earlier);
    var a, b := store[..k], store[k..];
    assert store == a + b;
    FirstMatchConcat(a, b, y);
    FirstMatchBetween(a, x, b, y);
    FrontIsEarlier(store, x, k);
    NoFrontMatch(store, x, a, y);
  }

  lemma SelfMatch(store: seq<Stored>, y: Stored)
    requires y in store
    ensures FirstMatch(store, y.item).Some?
  {
  }

  /** The new row itself can always be repeated. */
  lemma NewRowRepeats(store: seq<Stored>, x: Item)
    requires Sorting.SortedBy(store, Earlier)
    ensures var row := Stored(x, FamilyFor(store, x));
            FamilyFor(Sorting.Insert(row, store, Earlier), x) == row.family
  {
    var row := Stored(x, FamilyFor(store, x));
    FirstMatchAfter(store, row, x);
    if FirstMatch(store, x).None? {
      assert Overtaken(store, row, x);
    }
  }

  /**
   In an ordered store in which every repeat finds its family, a new arrival keeps that so if and only if it overtakes no
   stored item of another family.
   */
  lemma RepeatableAfterIngest(store: seq<Stored>, x: Item)
    requires DistinctIds(store) && Sorting.SortedBy(store, Earlier) && Repeatable(store)
    ensures Repeatable(AfterIngest(store, x)) <==> Known(store, x.id) || NoneOvertaken(store, x)
  {
    if !Known(store, x.id) {
      var row := Stored(x, FamilyFor(store, x));
      var more := Sorting.Insert(row, store, Earlier);
      InsertDistinct(row, store);
      NewRowRepeats(store, x);
      forall y | y in store
        ensures FamilyFor(more, y.item) == if Overtaken(store, row, y.item) then row.family else y.family
      {
        FirstMatchAfter(store, row, y.item);
        SelfMatch(store, y);
      }
    }
  }

  lemma {:induction false} StoreSorted(arrivals: seq<Item>)
    ensures Sorting.SortedBy(StoreOf(arrivals), Earlier)
  {
    if arrivals != [] {
      var front, x := arrivals[..|arrivals| - 1], arrivals[|arrivals| - 1];
      StoreSorted(front);
      EarlierTotal();
      Sorting.InsertSorted(Stored(x, FamilyFor(StoreOf(front), x)), StoreOf(front), Earlier);
    }
  }

  /** The store is read back by reception time, then by id. */
  lemma StoreInOrder(arrivals: seq<Item>, i: nat, j: nat)
    requires i < j < |StoreOf(arrivals)|
    ensures var a, b := StoreOf(arrivals)[i].item, StoreOf(arrivals)[j].item;
            a.receivedAt < b.receivedAt || (a.receivedAt == b.receivedAt && a.id < b.id)
  {
    StoreSorted(arrivals);
    FamiliesAreConnected(arrivals);
    var store := StoreOf(arrivals);
    assert Earlier(store[i], store[j]);
    assert store[i].item.id != store[j].item.id;
  }

  /** Repeats find their family after every one of the arrivals. */
  ghost predicate AlwaysRepeatable(arrivals: seq<Item>) {
    Repeatable(StoreOf(arrivals)) && (arrivals != [] ==> AlwaysRepeatable(arrivals[..|arrivals| - 1]))
  }

  ghost predicate NeverOvertakes(arrivals: seq<Item>) {
    arrivals != [] ==>
      var store, x := StoreOf(arrivals[..|arrivals| - 1]), arrivals[|arrivals| - 1];
      NeverOvertakes(arrivals[..|arrivals| - 1]) && (Known(store, x.id) || NoneOvertaken(store, x))
  }

  /** Repeating an ingest is idempotent after every arrival if and only if no arrival overtook an item of another family. */
  lemma {:induction false} RepeatableIff(arrivals: seq<Item>)
    ensures AlwaysRepeatable(arrivals) <==> NeverOvertakes(arrivals)
  {
    if arrivals != [] {
      var front, x := arrivals[..|arrivals| - 1], arrivals[|arrivals| - 1];
      RepeatableIff(front);
      if AlwaysRepeatable(front) {
        FamiliesAreConnected(front);
        StoreSorted(front);
        assert Repeatable(StoreOf(front));
        RepeatableAfterIngest(StoreOf(front), x);
      }
    }
  }

  /** The arrivals come in the order in which the store is read. */
  ghost predicate InReadingOrder(arrivals: seq<Item>) {
    forall i, j :: 0 <= i < j < |arrivals| ==> ReadBefore(arrivals[i], arrivals[j])
  }

  lemma {:induction false} StoreFromArrivals(arrivals: seq<Item>)
    ensures forall y :: y in StoreOf(arrivals) ==> y.item in arrivals
  {
    if arrivals != [] {
      var front, x := arrivals[..|arrivals| - 1], arrivals[|arrivals| - 1];
      StoreFromArrivals(front);
      FamiliesAreConnected(front);
      if !Known(StoreOf(front), x.id) {
        InsertDistinct(Stored(x, FamilyFor(StoreOf(front), x)), StoreOf(front));
      }
      assert x in arrivals && forall z :: z in front ==> z in arrivals;
    }
  }

  /** Arrivals in reading order overtake nothing, so repeats are always idempotent then, ambiguous arrivals or not. */
  lemma {:induction false} InOrderIsRepeatable(arrivals: seq<Item>)
    requires InReadingOrder(arrivals)
    ensures NeverOvertakes(arrivals) && AlwaysRepeatable(arrivals)
  {
    if arrivals != [] {
      var n := |arrivals| - 1;
      var front, x := arrivals[..n], arrivals[n];
      InOrderIsRepeatable(front);
      var store := StoreOf(front);
      var row := Stored(x, FamilyFor(store, x));
      StoreFromArrivals(front);
      forall y | y in store ensures !Overtaken(store, row, y.item) {
        assert y.item in front;
        var i :| 0 <= i < n && front[i] == y.item;
        assert ReadBefore(arrivals[i], arrivals[n]);
        assert Earlier(y, row) && Matches(y, y.item);
      }
    }
    RepeatableIff(arrivals);
  }

  // ---- An ambiguous arrival ----

  const Eastern := Item(1, 0, "d1", None, "east", None, 1, false)
  const Western := Item(2, 0, "d2", None, "west", None, 3, false)
  /** From the east like the first, with the content of the second. */
  const Bridge := Item(3, 0, "d2", None, "east", None, 2, false)

  lemma Origins()
    ensures Normal("east") != Normal("west")
  {
    assert Strip("east", Blank) == "east" && Strip("west", Blank) == "west";
    assert Lower("east")[0] == 'e' && Lower("west")[0] == 'w';
  }

  const East := Stored(Eastern, Family(0, OriginSeed(Normal("east"))))
  const West := Stored(Western, Family(0, OriginSeed(Normal("west"))))
  const Joined := Stored(Bridge, East.family)

  lemma {:induction false} EastEnters()
    ensures AfterIngest([], Eastern) == [East]
  {
  }

  lemma {:induction false} WestEnters()
    ensures AfterIngest([East], Western) == [East, West] && East.family != West.family
  {
    Origins();
    NoMatch(East, Western);
    assert !Known([East], 2);
    InsertBehind(East, West);
  }

  lemma InsertBehind(a: Stored, b: Stored)
    requires Earlier(a, b)
    ensures Sorting.Insert(b, [a], Earlier) == [a, b]
  {
  }

  lemma {:induction false} TwoFamilies()
    ensures StoreOf([Eastern, Western]) == [East, West] && East.family != West.family
  {
    EastEnters();
    WestEnters();
    assert [] + [Eastern] == [Eastern] && [Eastern] + [Western] == [Eastern, Western];
    StoreOfAppend([], Eastern);
    StoreOfAppend([Eastern], Western);
  }

  lemma {:induction false} NoMatch(e: Stored, x: Item)
    requires !Match(e.item, x)
    ensures FirstMatch([e], x) == None
  {
    assert [e][1..] == [];
  }

  lemma {:induction false} StoreOfAppend(arrivals: seq<Item>, x: Item)
    ensures StoreOf(arrivals + [x]) == AfterIngest(StoreOf(arrivals), x)
  {
    assert (arrivals + [x])[..|arrivals|] == arrivals;
  }

  lemma {:induction false} BridgeEnters()
    ensures AfterIngest([East, West], Bridge) == [East, Joined, West]
  {
    FirstIsEast();
    assert !Known([East, West], 3);
    InsertBetween(East, Joined, West);
  }

  lemma {:induction false} BridgeJoinsEast()
    ensures StoreOf([Eastern, Western] + [Bridge]) == [East, Joined, West]
  {
    TwoFamilies();
    BridgeEnters();
    StoreOfAppend([Eastern, Western], Bridge);
  }

  lemma FirstIsEast()
    ensures FirstMatch([East, West], Bridge) == Some(East)
  {
  }

  lemma InsertBetween(a: Stored, b: Stored, c: Stored)
    requires Earlier(a, b) && !Earlier(c, b)
    ensures Sorting.Insert(b, [a, c], Earlier) == [a, b, c]
  {
    assert [a, c][..1] == [a];
    assert Sorting.Insert(b, [a], Earlier) == [a] + [b];
  }

  /** One item that matches two families leaves equal digests in different families, and a repeat of the second conflicts. */
  lemma BridgeSplitsEqualDigests()
    ensures var store := StoreOf([Eastern, Western] + [Bridge]);
            && Joined in store && West in store && Joined.item.digest == West.item.digest && Joined.family != West.family
            && FamilyFor(store, West.item) != West.family
  {
    TwoFamilies();
    BridgeJoinsEast();
    Origins();
    var store := [East, Joined, West];
    assert store[0] == East && store[1] == Joined && store[2] == West;
    assert store[1..] == [Joined, West];
    assert FirstMatch(store, Western) == FirstMatch([Joined, West], Western) == Some(Joined);
  }

  // ---- The family summary ----

  function InFamily(rows: seq<Stored>, f: Family): (r: seq<Stored>)
    ensures forall y :: y in r <==> y in rows && y.family == f
    ensures forall y :: multiset(r)[y] == if y.family == f then multiset(rows)[y] else 0
  {
    if rows == [] then []
    else
      var front, last := rows[..|rows| - 1], rows[|rows| - 1];
      assert rows == front + [last];
      if last.family == f then InFamily(front, f) + [last] else InFamily(front, f)
  }

  lemma {:induction false} InFamilyAppend(rows: seq<Stored>, y: Stored, f: Family)
    ensures InFamily(rows + [y], f) == InFamily(rows, f) + (if y.family == f then [y] else [])
  {
    assert (rows + [y])[..|rows|] == rows;
  }

  function GroupOf(groups: map<Family, seq<Stored>>, f: Family): seq<Stored> {
    if f in groups then groups[f] else []
  }

  /** The groups partition the rows, keeping their order and multiplicity, and none is empty. */
  ghost predicate Grouped(rows: seq<Stored>, groups: map<Family, seq<Stored>>) {
    && (forall f :: f in groups ==> groups[f] != [])
    && (forall f :: GroupOf(groups, f) == InFamily(rows, f))
  }

  lemma GroupedAppend(rows: seq<Stored>, y: Stored, groups: map<Family, seq<Stored>>)
    requires Grouped(rows, groups)
    ensures Grouped(rows + [y], groups[y.family := GroupOf(groups, y.family) + [y]])
  {
    var more := groups[y.family := GroupOf(groups, y.family) + [y]];
    forall f ensures GroupOf(more, f) == InFamily(rows + [y], f) {
      InFamilyAppend(rows, y, f);
      assert GroupOf(groups, f) == InFamily(rows, f);
    }
  }

  /** The grouping loop of `families`. */
  method GroupByFamily(rows: seq<Stored>) returns (groups: map<Family, seq<Stored>>)
    ensures Grouped(rows, groups)
  {
    groups := map[];
    for k := 0 to |rows|
      invariant Grouped(rows[..k], groups)
    {
      var y := rows[k];
      assert rows[..k + 1] == rows[..k] + [y];
      GroupedAppend(rows[..k], y, groups);
      var items := if y.family in groups then groups[y.family] else [];
      groups := groups[y.family := items + [y]];
    }
    assert rows[..|rows|] == rows;
  }
}
