/** Bounded bucket maps: which entries an eviction removes, and the method that
    removes them by sorting an idle and a non-idle list. */
module Eviction {
  import opened TokenBuckets

  /** One entry.  Only renewal entries ever hold a pending reconnect allowance;
      the per-IP maps use entries without one. */
  datatype Entry = Entry(bucket: Bucket, lastSeen: int, allowance: bool)

  type Entries = map<string, Entry>

  /** A gate of `max` attempts a minute: bursts of `max`, one token per `rate`. */
  datatype Config = Config(max: int, rate: int, maxMapSize: int, maxIdle: int) {
    predicate Ok() { 0 < max && 0 < rate && max * rate <= MINUTE }
    function HardLimit(): (r: nat) ensures r >= 1 { if maxMapSize < 1 then 1 else maxMapSize }
    function Target(): (r: nat) ensures 1 <= r <= HardLimit() { if HardLimit() / 2 < 1 then 1 else HardLimit() / 2 }
  }

  // ---- the order -----------------------------------------------------------------------

  /** Byte-wise string order. */
  predicate LexLess(a: string, b: string) {
    b != "" && (a == "" || a[0] < b[0] || (a[0] == b[0] && LexLess(a[1..], b[1..])))
  }

  lemma {:induction false} LexTotal(a: string, b: string)
    ensures a == b || LexLess(a, b) || LexLess(b, a)
    ensures !(LexLess(a, b) && LexLess(b, a))
    ensures a == b ==> !LexLess(a, b)
  {
    if a != "" && b != "" && a[0] == b[0] {
      LexTotal(a[1..], b[1..]);
      assert a == [a[0]] + a[1..] && b == [b[0]] + b[1..];
    }
  }

  lemma {:induction false} LexTransitive(a: string, b: string, c: string)
    requires LexLess(a, b) && LexLess(b, c)
    ensures LexLess(a, c)
  {
    if a != "" && a[0] == b[0] && b[0] == c[0] {
      LexTransitive(a[1..], b[1..], c[1..]);
    }
  }

  datatype Candidate = Candidate(key: string, lastSeen: int)

  /** sortStringBucketCandidates and sortAccountBucketCandidates. */
  predicate Less(x: Candidate, y: Candidate) {
    if x.lastSeen == y.lastSeen then LexLess(x.key, y.key) else x.lastSeen < y.lastSeen
  }

  /** At the first difference the smaller character comes first, and a prefix
      comes before what it begins. */
  lemma {:induction false} LexLessIff(a: string, b: string)
    ensures LexLess(a, b) <==> exists i :: 0 <= i <= |a| && i < |b| && a[..i] == b[..i] && (i == |a| || a[i] < b[i])
  {
    if LexLess(a, b) && a != "" && a[0] == b[0] {
      LexLessIff(a[1..], b[1..]);
      var i :| && 0 <= i <= |a[1..]| && i < |b[1..]| && a[1..][..i] == b[1..][..i]
               && (i == |a[1..]| || a[1..][i] < b[1..][i]);
      assert a[..i + 1] == [a[0]] + a[1..][..i] && b[..i + 1] == [b[0]] + b[1..][..i];
    } else if LexLess(a, b) {
      assert a[..0] == b[..0];
    }
    if i :| 0 <= i <= |a| && i < |b| && a[..i] == b[..i] && (i == |a| || a[i] < b[i]) {
      if i > 0 {
        assert a[0] == a[..i][0] == b[..i][0] == b[0];
        assert a[1..][..i - 1] == a[..i][1..] && b[1..][..i - 1] == b[..i][1..];
        LexLessIff(a[1..], b[1..]);
      }
    }
  }

  lemma LessTotal(x: Candidate, y: Candidate)
    ensures x.key != y.key ==> Less(x, y) || Less(y, x)
    ensures !(Less(x, y) && Less(y, x))
  {
    LexTotal(x.key, y.key);
  }

  lemma LessTransitive(x: Candidate, y: Candidate, z: Candidate)
    requires Less(x, y) && Less(y, z)
    ensures Less(x, z)
  {
    if x.lastSeen == y.lastSeen == z.lastSeen { LexTransitive(x.key, y.key, z.key); }
  }

  // ---- specification ---------------------------------------------------------------------

  function Of(m: Entries, k: string): Candidate
    requires k in m
  {
    Candidate(k, m[k].lastSeen)
  }

  /** The entries an eviction may remove. */
  function Unprotected(m: Entries): set<string> {
    set k | k in m && !m[k].allowance
  }

  predicate Idle(cfg: Config, m: Entries, k: string, now: int)
    requires k in m
  {
    m[k].lastSeen < now - cfg.maxIdle
  }

  /** How many entries to remove: down to just below the target size, or every
      candidate when all of them are idle. */
  function Quota(cfg: Config, m: Entries, now: int): (n: nat)
    requires |m| >= cfg.HardLimit()
    ensures n >= 1 || Unprotected(m) == {}
  {
    if forall k :: k in Unprotected(m) ==> Idle(cfg, m, k, now) then |Unprotected(m)| else |m| - cfg.Target() + 1
  }

  /** `gone` is the `n` least candidates, or all of them when there are fewer. */
  ghost predicate Least(m: Entries, cand: set<string>, gone: set<string>, n: nat)
    requires cand <= m.Keys
  {
    && gone <= cand
    && |gone| == (if n < |cand| then n else |cand|)
    && forall x, y :: x in gone && y in cand - gone ==> Less(Of(m, x), Of(m, y))
  }

  /** What evictStringBucketsIfNeededLocked and evictAccountBucketsIfNeededLocked remove. */
  ghost predicate Evicts(cfg: Config, m: Entries, now: int, gone: set<string>) {
    if |m| < cfg.HardLimit() then gone == {} else Least(m, Unprotected(m), gone, Quota(cfg, m, now))
  }

  /** What goes has been unused for longer than any unprotected entry that stays,
      or as long and under a smaller key. */
  lemma EvictsLeastRecent(cfg: Config, m: Entries, now: int, gone: set<string>, x: string, y: string)
    requires Evicts(cfg, m, now, gone) && x in gone && y in m && y !in gone && !m[y].allowance
    ensures x in m && !m[x].allowance
    ensures m[x].lastSeen < m[y].lastSeen || (m[x].lastSeen == m[y].lastSeen && LexLess(x, y))
  {
    assert y in Unprotected(m) && Less(Of(m, x), Of(m, y));
  }

  lemma SubsetOfSameSize<T>(a: set<T>, b: set<T>)
    requires a <= b && |a| == |b|
    ensures a == b
  {
    assert |b - a| == 0;
  }

  /** The specification determines the removed set. */
  lemma LeastUnique(m: Entries, cand: set<string>, g1: set<string>, g2: set<string>, n: nat)
    requires cand <= m.Keys && Least(m, cand, g1, n) && Least(m, cand, g2, n)
    ensures g1 == g2
  {
    if g1 <= g2 {
      SubsetOfSameSize(g1, g2);
    } else if g2 <= g1 {
      SubsetOfSameSize(g2, g1);
    } else {
      var x :| x in g1 && x !in g2;
      var y :| y in g2 && y !in g1;
      LessTotal(Of(m, x), Of(m, y));
      assert false;
    }
  }

  // ---- sorting -----------------------------------------------------------------------------

  ghost predicate Ascending(s: seq<Candidate>) {
    forall i, j :: 0 <= i < j < |s| ==> Less(s[i], s[j])
  }

  ghost predicate DistinctKeys(s: seq<Candidate>) {
    forall i, j :: 0 <= i < j < |s| ==> s[i].key != s[j].key
  }

  function KeysIn(s: seq<Candidate>): set<string> {
    set i | 0 <= i < |s| :: s[i].key
  }

  /** sort.Slice on a candidate list, as an insertion sort. */
  method Sort(s: seq<Candidate>) returns (r: seq<Candidate>)
    requires DistinctKeys(s)
    ensures Ascending(r) && DistinctKeys(r) && multiset(r) == multiset(s)
  {
    r := [];
    for n := 0 to |s|
      invariant Ascending(r) && DistinctKeys(r) && multiset(r) == multiset(s[..n])
    {
      var c := s[n];
      KeyIsNew(s, n, r);
      var i := 0;
      while i < |r| && Less(r[i], c)
        invariant 0 <= i <= |r| && forall j :: 0 <= j < i ==> Less(r[j], c)
      {
        i := i + 1;
      }
      InsertAscending(r, c, i);
      assert s[..n + 1] == s[..n] + [c];
      r := r[..i] + [c] + r[i..];
    }
    assert s[..|s|] == s;
  }

  lemma KeyIsNew(s: seq<Candidate>, n: nat, r: seq<Candidate>)
    requires DistinctKeys(s) && n < |s| && multiset(r) == multiset(s[..n])
    ensures forall j :: 0 <= j < |r| ==> r[j].key != s[n].key
  {
    forall j | 0 <= j < |r| ensures r[j].key != s[n].key {
      assert r[j] in multiset(r);
      assert r[j] in s[..n];
    }
  }

  lemma InsertAscending(r: seq<Candidate>, c: Candidate, i: nat)
    requires Ascending(r) && DistinctKeys(r) && i <= |r| && (forall j :: 0 <= j < |r| ==> r[j].key != c.key)
    requires (forall j :: 0 <= j < i ==> Less(r[j], c)) && (i < |r| ==> !Less(r[i], c))
    ensures Ascending(r[..i] + [c] + r[i..]) && DistinctKeys(r[..i] + [c] + r[i..])
    ensures multiset(r[..i] + [c] + r[i..]) == multiset(r) + multiset{c}
  {
    forall j | i <= j < |r| ensures Less(c, r[j]) {
      LessTotal(c, r[i]);
      if j > i { LessTransitive(c, r[i], r[j]); }
    }
    assert r == r[..i] + r[i..];
  }

  lemma PermutationKeys(s: seq<Candidate>, r: seq<Candidate>)
    requires multiset(s) == multiset(r)
    ensures KeysIn(s) == KeysIn(r) && |s| == |r|
  {
    assert |multiset(s)| == |multiset(r)|;
    forall k | k in KeysIn(s) ensures k in KeysIn(r) {
      var i :| 0 <= i < |s| && s[i].key == k;
      assert s[i] in multiset(r);
    }
    forall k | k in KeysIn(r) ensures k in KeysIn(s) {
      var i :| 0 <= i < |r| && r[i].key == k;
      assert r[i] in multiset(s);
    }
  }

  lemma {:induction false} KeysCount(s: seq<Candidate>)
    requires DistinctKeys(s)
    ensures |KeysIn(s)| == |s|
  {
    if s != [] {
      var t := s[..|s| - 1];
      KeysCount(t);
      assert KeysIn(s) == KeysIn(t) + {s[|s| - 1].key};
    }
  }

  // ---- the method --------------------------------------------------------------------------

  /** Delete listed entries until `quota` entries are gone in all. */
  method DeleteFrom(m: Entries, list: seq<Candidate>, deleted: nat, quota: nat) returns (m': Entries, deleted': nat)
    requires deleted <= quota
    ensures deleted' == deleted + Min(quota - deleted, |list|)
    ensures m' == m - KeysIn(list[..Min(quota - deleted, |list|)])
  {
    m', deleted' := m, deleted;
    var i := 0;
    while i < |list| && deleted' < quota
      invariant 0 <= i <= |list| && deleted' == deleted + i <= quota
      invariant m' == m - KeysIn(list[..i])
    {
      assert KeysIn(list[..i + 1]) == KeysIn(list[..i]) + {list[i].key};
      m' := m' - {list[i].key};
      i, deleted' := i + 1, deleted' + 1;
    }
  }

  function Min(a: nat, b: nat): nat { if a < b then a else b }

  /** Split the unprotected entries into idle and other candidates. */
  method Classify(cfg: Config, m: Entries, now: int) returns (idle: seq<Candidate>, other: seq<Candidate>)
    ensures Listed(m, idle) && Listed(m, other) && KeysIn(idle) !! KeysIn(other)
    ensures forall k :: k in KeysIn(idle) <==> k in Unprotected(m) && Idle(cfg, m, k, now)
    ensures forall k :: k in KeysIn(other) <==> k in Unprotected(m) && !Idle(cfg, m, k, now)
  {
    idle, other := [], [];
    var rest := m.Keys;
    while rest != {}
      invariant rest <= m.Keys && Listed(m, idle) && Listed(m, other)
      invariant forall k :: k in KeysIn(idle) <==> k in Unprotected(m) - rest && Idle(cfg, m, k, now)
      invariant forall k :: k in KeysIn(other) <==> k in Unprotected(m) - rest && !Idle(cfg, m, k, now)
    {
      var k :| k in rest;
      rest := rest - {k};
      if !m[k].allowance {
        if m[k].lastSeen < now - cfg.maxIdle {
          AppendListed(m, idle, k);
          idle := idle + [Candidate(k, m[k].lastSeen)];
        } else {
          AppendListed(m, other, k);
          other := other + [Candidate(k, m[k].lastSeen)];
        }
      }
    }
  }

  /** A list of distinct entries of `m`. */
  ghost predicate Listed(m: Entries, s: seq<Candidate>) {
    DistinctKeys(s) && forall i :: 0 <= i < |s| ==> s[i].key in m && s[i] == Of(m, s[i].key)
  }

  lemma AppendListed(m: Entries, s: seq<Candidate>, k: string)
    requires Listed(m, s) && k in m && k !in KeysIn(s)
    ensures Listed(m, s + [Of(m, k)]) && KeysIn(s + [Of(m, k)]) == KeysIn(s) + {k}
  {
    var t := s + [Of(m, k)];
    assert t[|s|].key == k;
    forall x | x in KeysIn(s) ensures x in KeysIn(t) {
      var i :| 0 <= i < |s| && s[i].key == x;
      assert t[i].key == x;
    }
    forall i | 0 <= i < |s| ensures s[i].key != k {
      assert s[i].key in KeysIn(s);
    }
  }

  lemma ListedPermutation(m: Entries, s: seq<Candidate>, r: seq<Candidate>)
    requires Listed(m, s) && DistinctKeys(r) && multiset(r) == multiset(s)
    ensures Listed(m, r)
  {
    forall i | 0 <= i < |r| ensures r[i].key in m && r[i] == Of(m, r[i].key) {
      assert r[i] in multiset(s);
    }
  }

  /** Idle entries precede the others, so the two sorted lists form one. */
  lemma JoinAscending(cfg: Config, m: Entries, now: int, idle: seq<Candidate>, other: seq<Candidate>)
    requires Listed(m, idle) && Listed(m, other) && Ascending(idle) && Ascending(other)
    requires forall k :: k in KeysIn(idle) ==> k in m && Idle(cfg, m, k, now)
    requires forall k :: k in KeysIn(other) ==> k in m && !Idle(cfg, m, k, now)
    ensures Ascending(idle + other) && Listed(m, idle + other) && KeysIn(idle + other) == KeysIn(idle) + KeysIn(other)
  {
    var all := idle + other;
    forall i, j | 0 <= i < |idle| && 0 <= j < |other|
      ensures Less(idle[i], other[j]) && idle[i].key != other[j].key
    {
      assert idle[i].key in KeysIn(idle) && other[j].key in KeysIn(other);
    }
    forall i, j | 0 <= i < j < |all| ensures Less(all[i], all[j]) && all[i].key != all[j].key {
    }
    assert forall i :: 0 <= i < |idle| ==> all[i] == idle[i];
    assert forall j :: 0 <= j < |other| ==> all[|idle| + j] == other[j];
    assert KeysIn(all) == KeysIn(idle) + KeysIn(other);
  }

  /** The first `t` of an ascending list are its least elements. */
  lemma PrefixIsLeast(m: Entries, all: seq<Candidate>, n: nat)
    requires Ascending(all) && Listed(m, all) && KeysIn(all) <= m.Keys
    ensures Least(m, KeysIn(all), KeysIn(all[..Min(n, |all|)]), n)
  {
    var t := Min(n, |all|);
    KeysCount(all);
    KeysCount(all[..t]);
    forall x, y | x in KeysIn(all[..t]) && y in KeysIn(all) - KeysIn(all[..t]) ensures Less(Of(m, x), Of(m, y)) {
      var i :| 0 <= i < t && all[i].key == x;
      var j :| 0 <= j < |all| && all[j].key == y;
    }
  }

  /** The idle list first, then the other one. */
  method DeleteBoth(m: Entries, a: seq<Candidate>, b: seq<Candidate>, quota: nat) returns (m': Entries)
    ensures m' == m - KeysIn((a + b)[..Min(quota, |a + b|)])
  {
    var m1, deleted := DeleteFrom(m, a, 0, quota);
    m', deleted := DeleteFrom(m1, b, deleted, quota);
    TwoPrefixes(a, b, quota);
  }

  /** Both lists sorted and joined: the quota's worth of it is what must go. */
  lemma JoinedListEvicts(cfg: Config, m: Entries, now: int, idle: seq<Candidate>, other: seq<Candidate>,
                         idleSorted: seq<Candidate>, otherSorted: seq<Candidate>)
    requires |m| >= cfg.HardLimit() && Listed(m, idle) && Listed(m, other)
    requires forall k :: k in KeysIn(idle) <==> k in Unprotected(m) && Idle(cfg, m, k, now)
    requires forall k :: k in KeysIn(other) <==> k in Unprotected(m) && !Idle(cfg, m, k, now)
    requires Ascending(idleSorted) && DistinctKeys(idleSorted) && multiset(idleSorted) == multiset(idle)
    requires Ascending(otherSorted) && DistinctKeys(otherSorted) && multiset(otherSorted) == multiset(other)
    ensures var all := idleSorted + otherSorted; var n := Quota(cfg, m, now);
            && Evicts(cfg, m, now, KeysIn(all[..Min(n, |all|)]))
            && n == if otherSorted == [] then |all| else |m| - cfg.Target() + 1
  {
    ListedPermutation(m, idle, idleSorted);
    ListedPermutation(m, other, otherSorted);
    PermutationKeys(idle, idleSorted);
    PermutationKeys(other, otherSorted);
    var all := idleSorted + otherSorted;
    JoinAscending(cfg, m, now, idleSorted, otherSorted);
    assert KeysIn(all) == Unprotected(m);
    KeysCount(all);
    PrefixIsLeast(m, all, Quota(cfg, m, now));
    if otherSorted != [] {
      assert otherSorted[0].key in KeysIn(otherSorted);
    }
  }

  /** evictStringBucketsIfNeededLocked and evictAccountBucketsIfNeededLocked:
      the two differ in that only the second map holds protected entries. */
  method Evict(cfg: Config, m: Entries, now: int) returns (m': Entries, ghost gone: set<string>)
    ensures Evicts(cfg, m, now, gone) && m' == m - gone
  {
    if |m| < cfg.HardLimit() {
      return m, {};
    }
    var idle, other := Classify(cfg, m, now);
    var idleSorted := Sort(idle);
    var otherSorted := Sort(other);
    JoinedListEvicts(cfg, m, now, idle, other, idleSorted, otherSorted);
    var quota := if |otherSorted| == 0 then |idleSorted| else |m| - cfg.Target() + 1;
    m' := DeleteBoth(m, idleSorted, otherSorted, quota);
    gone := KeysIn((idleSorted + otherSorted)[..Min(quota, |idleSorted + otherSorted|)]);
  }

  lemma TwoPrefixes(a: seq<Candidate>, b: seq<Candidate>, n: nat)
    ensures var i := Min(n, |a|); var j := Min(n - i, |b|);
            KeysIn(a[..i]) + KeysIn(b[..j]) == KeysIn((a + b)[..Min(n, |a + b|)])
  {
    var i := Min(n, |a|);
    var j := Min(n - i, |b|);
    assert (a + b)[..Min(n, |a + b|)] == a[..i] + b[..j];
    KeysOfJoin(a[..i], b[..j]);
  }

  lemma KeysOfJoin(a: seq<Candidate>, b: seq<Candidate>)
    ensures KeysIn(a + b) == KeysIn(a) + KeysIn(b)
  {
    assert forall i :: 0 <= i < |a| ==> (a + b)[i] == a[i];
    assert forall i :: 0 <= i < |b| ==> (a + b)[|a| + i] == b[i];
  }
}
