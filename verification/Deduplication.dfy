/** The telemetry deduplicator: the keys it builds, and a cache that is swept now and then yet answers as
    an unbounded history of accepted events would. */
module Deduplication {
  import opened Text
  import opened TelemetryEvents
  import opened Collections

  // ---------- Keys ----------

  function Join(a: string, b: string): string {
    a + ":" + b
  }

  /** `time.Time.Unix` of a time in nanoseconds. */
  function UnixSeconds(t: int): int {
    t / 1_000_000_000
  }

  /** What the deduplicator means to tell events apart by. */
  datatype Identity =
    | ProcessIdentity(pid: int, binaryPath: string)
    | FileIdentity(pid: int, filePath: string, action: string)
    | NetworkIdentity(pid: int, remoteIP: string, protocol: string, remotePort: int)
    | OtherIdentity(typ: string, seconds: int)

  function IdentityOf(e: Event): Identity {
    if e.typ == "process" then ProcessIdentity(e.processID, e.binaryPath)
    else if e.typ == "file" then FileIdentity(e.processID, e.filePath, e.fileAction)
    else if e.typ == "network" then NetworkIdentity(e.processID, e.remoteIP, e.protocol, e.remotePort)
    else OtherIdentity(e.typ, UnixSeconds(e.timestamp))
  }

  function ClassOf(i: Identity): string {
    match i
    case ProcessIdentity(_, _) => "proc"
    case FileIdentity(_, _, _) => "file"
    case NetworkIdentity(_, _, _, _) => "net"
    case OtherIdentity(_, _) => "other"
  }

  function BodyOf(i: Identity): string {
    match i
    case ProcessIdentity(pid, path) => Join(Decimal(pid), path)
    case FileIdentity(pid, path, action) => Join(Decimal(pid), Join(path, action))
    case NetworkIdentity(pid, ip, protocol, port) => Join(Decimal(pid), Join(Join(ip, protocol), Decimal(port)))
    case OtherIdentity(typ, seconds) => Join(typ, Decimal(seconds))
  }

  /** The class, a colon, and the fields that identify the event within it. */
  function KeyOf(i: Identity): string {
    Join(ClassOf(i), BodyOf(i))
  }

  function Key(e: Event): string {
    KeyOf(IdentityOf(e))
  }

  /** What a key keeps of an identity: two neighbouring fields of a file or network event are run
      together with a ':'. */
  function Blur(i: Identity): Identity {
    match i
    case FileIdentity(pid, path, action) => FileIdentity(pid, Join(path, action), "")
    case NetworkIdentity(pid, ip, protocol, port) => NetworkIdentity(pid, Join(ip, protocol), "", port)
    case _ => i
  }

  lemma JoinInjectiveFirst(a: string, b: string, c: string, d: string)
    requires ':' !in a && ':' !in c
    ensures Join(a, b) == Join(c, d) <==> a == c && b == d
  {
    if Join(a, b) == Join(c, d) {
      SplitAtFirstColon(a, b, c, d);
    }
  }

  lemma JoinInjectiveLast(a: string, b: string, c: string, d: string)
    requires ':' !in b && ':' !in d
    ensures Join(a, b) == Join(c, d) <==> a == c && b == d
  {
    if Join(a, b) == Join(c, d) {
      SplitAtLastColon(a, b, c, d);
    }
  }

  /** Keys are equal exactly when the identities are, up to the blurred fields. */
  lemma KeysEqualIffBlursEqual(i: Identity, j: Identity)
    ensures KeyOf(i) == KeyOf(j) <==> Blur(i) == Blur(j)
  {
    assert ClassOf(i)[0] == ClassOf(j)[0] <==> ClassOf(i) == ClassOf(j);
    JoinInjectiveFirst(ClassOf(i), BodyOf(i), ClassOf(j), BodyOf(j));
    if ClassOf(i) == ClassOf(j) {
      BodiesEqualIffBlursEqual(i, j);
    }
  }

  lemma DecimalEqual(m: int, n: int)
    ensures Decimal(m) == Decimal(n) <==> m == n
    ensures ':' !in Decimal(m)
  {
    DecimalHasNoColon(m);
    if Decimal(m) == Decimal(n) {
      DecimalInjective(m, n);
    }
  }

  lemma BodiesEqualIffBlursEqual(i: Identity, j: Identity)
    requires ClassOf(i) == ClassOf(j)
    ensures BodyOf(i) == BodyOf(j) <==> Blur(i) == Blur(j)
  {
    match (i, j)
    case (OtherIdentity(t, m), OtherIdentity(u, n)) =>
      DecimalEqual(m, n);
      DecimalEqual(n, m);
      JoinInjectiveLast(t, Decimal(m), u, Decimal(n));
    case (NetworkIdentity(p, ip, protocol, port), NetworkIdentity(q, ip', protocol', port')) =>
      DecimalEqual(p, q);
      DecimalEqual(q, p);
      DecimalEqual(port, port');
      DecimalEqual(port', port);
      JoinInjectiveLast(Join(ip, protocol), Decimal(port), Join(ip', protocol'), Decimal(port'));
      JoinInjectiveFirst(Decimal(p), Join(Join(ip, protocol), Decimal(port)),
                         Decimal(q), Join(Join(ip', protocol'), Decimal(port')));
    case (ProcessIdentity(p, path), ProcessIdentity(q, path')) =>
      DecimalEqual(p, q);
      DecimalEqual(q, p);
      JoinInjectiveFirst(Decimal(p), path, Decimal(q), path');
    case (FileIdentity(p, path, action), FileIdentity(q, path', action')) =>
      DecimalEqual(p, q);
      DecimalEqual(q, p);
      JoinInjectiveFirst(Decimal(p), Join(path, action), Decimal(q), Join(path', action'));
    case _ =>
  }

  predicate Plain(i: Identity) {
    match i
    case FileIdentity(_, _, action) => ':' !in action
    case NetworkIdentity(_, _, protocol, _) => ':' !in protocol
    case _ => true
  }

  /** While file actions and protocols hold no ':', equal keys mean equal identities, however many
      colons paths and addresses hold. */
  lemma PlainKeysAreInjective(a: Event, b: Event)
    requires Plain(IdentityOf(a)) && Plain(IdentityOf(b))
    ensures Key(a) == Key(b) <==> IdentityOf(a) == IdentityOf(b)
  {
    var i, j := IdentityOf(a), IdentityOf(b);
    KeysEqualIffBlursEqual(i, j);
    match (i, j)
    case (FileIdentity(_, path, action), FileIdentity(_, path', action')) =>
      JoinInjectiveLast(path, action, path', action');
    case (NetworkIdentity(_, ip, protocol, _), NetworkIdentity(_, ip', protocol', _)) =>
      JoinInjectiveLast(ip, protocol, ip', protocol');
    case _ =>
  }

  /** Which events share a key, field by field, while file actions and protocols hold no ':'. */
  lemma SameKeyMeaning(a: Event, b: Event)
    requires (a.typ == "file" ==> ':' !in a.fileAction) && (a.typ == "network" ==> ':' !in a.protocol)
    requires (b.typ == "file" ==> ':' !in b.fileAction) && (b.typ == "network" ==> ':' !in b.protocol)
    ensures Key(a) == Key(b) <==> SameFields(a, b)
  {
    PlainKeysAreInjective(a, b);
  }

  predicate SameFields(a: Event, b: Event) {
    && a.typ == b.typ
    && (a.typ == "process" ==> a.processID == b.processID && a.binaryPath == b.binaryPath)
    && (a.typ == "file" ==> a.processID == b.processID && a.filePath == b.filePath && a.fileAction == b.fileAction)
    && (a.typ == "network" ==>
          && a.processID == b.processID && a.remoteIP == b.remoteIP
          && a.protocol == b.protocol && a.remotePort == b.remotePort)
    && (a.typ !in {"process", "file", "network"} ==> UnixSeconds(a.timestamp) == UnixSeconds(b.timestamp))
  }

  /** Times in the same second are less than a second apart, and the second is the one they fall in. */
  lemma UnixSecondsMeaning(t: int)
    ensures UnixSeconds(t) * 1_000_000_000 <= t < (UnixSeconds(t) + 1) * 1_000_000_000
  {
  }

  /** With a ':' in the action, distinct events share a key. */
  lemma ColonActionsCollide(a: Event, path: string, x: string, y: string)
    requires a.typ == "file" && a.filePath == path && a.fileAction == x + ":" + y
    ensures Key(a) == Key(a.(filePath := path + ":" + x, fileAction := y))
  {
    assert Join(path, x + ":" + y) == Join(path + ":" + x, y);
  }

  // ---------- The cache against the history ----------

  datatype Seen = Seen(key: string, at: int)

  /** An accepted event with this key lies less than `ttl` back. */
  ghost predicate Repeats(h: seq<Seen>, key: string, now: int, ttl: int) {
    exists i :: 0 <= i < |h| && h[i].key == key && now - h[i].at < ttl
  }

  type Cache = map<string, int>

  const LIMIT: nat := 10000

  predicate Hit(c: Cache, key: string, now: int, ttl: int) {
    key in c && now - c[key] < ttl
  }

  function Swept(c: Cache, now: int, ttl: int): Cache {
    map k | k in c && now - c[k] <= ttl :: c[k]
  }

  /** The cache after a request; `limit` is the size above which it is swept. */
  function Updated(c: Cache, key: string, now: int, ttl: int, limit: nat): Cache {
    if Hit(c, key, now, ttl) then c
    else
      var d := c[key := now];
      if |d| > limit then Swept(d, now, ttl) else d
  }

  function Recorded(h: seq<Seen>, key: string, now: int, dup: bool): seq<Seen> {
    if dup then h else h + [Seen(key, now)]
  }

  /** A duplicate leaves the cache as it is. Any other event is stored with its time; and when that makes more
      than ten thousand entries, those older than the TTL go, the new one staying. */
  lemma UpdatedMeaning(c: Cache, key: string, now: int, ttl: int)
    requires ttl >= 0
    ensures var d, stored := Updated(c, key, now, ttl, LIMIT), c[key := now];
      if key in c && now - c[key] < ttl then d == c
      else if |stored| <= 10000 then d == stored
      else forall k :: (k in d <==> k == key || (k in c && now - c[k] <= ttl)) && (k in d ==> d[k] == stored[k])
  {
  }

  /** The cache holds times of accepted events, and for each accepted event it holds a later one of the
      same key unless the event can never matter again. */
  ghost predicate Tracks(c: Cache, h: seq<Seen>, ttl: int, last: int) {
    && (forall i :: 0 <= i < |h| ==> h[i].at <= last)
    && (forall k :: k in c ==> Recalls(h, k, c[k]))
    && (forall i :: 0 <= i < |h| ==> last - h[i].at > ttl || (h[i].key in c && h[i].at <= c[h[i].key]))
  }

  ghost predicate Recalls(h: seq<Seen>, key: string, at: int) {
    exists i :: 0 <= i < |h| && h[i] == Seen(key, at)
  }

  /** The swept cache answers as the history does. */
  lemma CacheAnswersAsHistory(c: Cache, h: seq<Seen>, ttl: int, last: int, key: string, now: int)
    requires Tracks(c, h, ttl, last) && last <= now
    ensures Hit(c, key, now, ttl) <==> Repeats(h, key, now, ttl)
  {
    if Hit(c, key, now, ttl) {
      assert Recalls(h, key, c[key]);
    }
  }

  lemma UpdateKeepsTrack(c: Cache, h: seq<Seen>, ttl: int, last: int, key: string, now: int, limit: nat)
    requires Tracks(c, h, ttl, last) && last <= now
    ensures Tracks(Updated(c, key, now, ttl, limit), Recorded(h, key, now, Hit(c, key, now, ttl)), ttl, now)
  {
    var d, g := Updated(c, key, now, ttl, limit), Recorded(h, key, now, Hit(c, key, now, ttl));
    forall k | k in d
      ensures Recalls(g, k, d[k])
    {
      if k != key || Hit(c, key, now, ttl) {
        assert Recalls(h, k, c[k]);
        var i :| 0 <= i < |h| && h[i] == Seen(k, c[k]);
        assert g[i] == Seen(k, d[k]);
      } else {
        assert g[|h|] == Seen(k, d[k]);
      }
    }
  }

  // ---------- Runs ----------

  datatype Request = Request(key: string, at: int)

  ghost predicate InOrder(reqs: seq<Request>, from: int) {
    forall i :: 0 <= i < |reqs| ==> from <= reqs[i].at && forall j :: i < j < |reqs| ==> reqs[i].at <= reqs[j].at
  }

  function CacheRun(c: Cache, reqs: seq<Request>, ttl: int, limit: nat): seq<bool>
    decreases |reqs|
  {
    if reqs == [] then []
    else
      var later := CacheRun(Updated(c, reqs[0].key, reqs[0].at, ttl, limit), reqs[1..], ttl, limit);
      [Hit(c, reqs[0].key, reqs[0].at, ttl)] + later
  }

  ghost function HistoryRun(h: seq<Seen>, reqs: seq<Request>, ttl: int): seq<bool>
    decreases |reqs|
  {
    if reqs == [] then []
    else
      var dup := Repeats(h, reqs[0].key, reqs[0].at, ttl);
      [dup] + HistoryRun(Recorded(h, reqs[0].key, reqs[0].at, dup), reqs[1..], ttl)
  }

  /** On every run under a clock that does not go back, the cache decides as the unbounded history,
      whatever the size at which it is swept: sweeping never changes an answer. */
  lemma {:induction false} CacheRunIsHistoryRun(c: Cache, h: seq<Seen>, reqs: seq<Request>, ttl: int, limit: nat,
                                                last: int)
    requires Tracks(c, h, ttl, last) && InOrder(reqs, last)
    ensures CacheRun(c, reqs, ttl, limit) == HistoryRun(h, reqs, ttl)
    decreases |reqs|
  {
    if reqs == [] {
    } else {
      var key, now := reqs[0].key, reqs[0].at;
      CacheAnswersAsHistory(c, h, ttl, last, key, now);
      UpdateKeepsTrack(c, h, ttl, last, key, now, limit);
      CacheRunIsHistoryRun(Updated(c, key, now, ttl, limit), Recorded(h, key, now, Hit(c, key, now, ttl)),
                           reqs[1..], ttl, limit, now);
    }
  }

  lemma SweepIsInvisible(reqs: seq<Request>, ttl: int, limit: nat, limit': nat, start: int)
    requires InOrder(reqs, start)
    ensures CacheRun(map[], reqs, ttl, limit) == CacheRun(map[], reqs, ttl, limit')
  {
    CacheRunIsHistoryRun(map[], [], reqs, ttl, limit, start);
    CacheRunIsHistoryRun(map[], [], reqs, ttl, limit', start);
  }

  /** Accepted events with one key lie at least `ttl` apart. */
  ghost predicate Spaced(h: seq<Seen>, ttl: int) {
    forall i, j :: 0 <= i < j < |h| && h[i].key == h[j].key ==> h[j].at - h[i].at >= ttl
  }

  /** One decision keeps the cache in step with the history and the history spaced. */
  lemma DecisionKeepsHistory(c: Cache, h: seq<Seen>, ttl: int, last: int, key: string, now: int)
    requires Tracks(c, h, ttl, last) && Spaced(h, ttl) && last <= now
    ensures Tracks(Updated(c, key, now, ttl, LIMIT), Recorded(h, key, now, Hit(c, key, now, ttl)), ttl, now)
    ensures Spaced(Recorded(h, key, now, Hit(c, key, now, ttl)), ttl)
  {
    CacheAnswersAsHistory(c, h, ttl, last, key, now);
    UpdateKeepsTrack(c, h, ttl, last, key, now, LIMIT);
  }

  ghost function HistoryAfter(h: seq<Seen>, reqs: seq<Request>, ttl: int): seq<Seen>
    decreases |reqs|
  {
    if reqs == [] then h
    else
      var dup := Repeats(h, reqs[0].key, reqs[0].at, ttl);
      HistoryAfter(Recorded(h, reqs[0].key, reqs[0].at, dup), reqs[1..], ttl)
  }

  lemma {:induction false} RunStaysSpaced(h: seq<Seen>, reqs: seq<Request>, ttl: int, last: int)
    requires Spaced(h, ttl) && InOrder(reqs, last) && forall i :: 0 <= i < |h| ==> h[i].at <= last
    ensures Spaced(HistoryAfter(h, reqs, ttl), ttl)
    decreases |reqs|
  {
    if reqs == [] {
    } else {
      var dup := Repeats(h, reqs[0].key, reqs[0].at, ttl);
      RunStaysSpaced(Recorded(h, reqs[0].key, reqs[0].at, dup), reqs[1..], ttl, reqs[0].at);
    }
  }

  // ---------- The deduplicator ----------

  class Deduplicator {
    var cache: map<string, int>
    const ttl: int
    ghost var history: seq<Seen>
    ghost var last: int

    ghost predicate Valid()
      reads this
    {
      Tracks(cache, history, ttl, last) && Spaced(history, ttl)
    }

    constructor (ttl: int, ghost start: int)
      ensures Valid() && this.ttl == ttl && cache == map[] && history == [] && last == start
    {
      this.ttl := ttl;
      cache, history, last := map[], [], start;
    }

    /** A duplicate is an event whose key was accepted less than `ttl` ago; any other is accepted. */
    method IsDuplicate(e: Event, now: int) returns (dup: bool)
      requires Valid() && last <= now
      modifies this
      ensures Valid() && last == now
      ensures dup <==> Repeats(old(history), Key(e), now, ttl)
      ensures history == Recorded(old(history), Key(e), now, dup)
      ensures cache == Updated(old(cache), Key(e), now, ttl, LIMIT)
    {
      var key := Key(e);
      CacheAnswersAsHistory(cache, history, ttl, last, key, now);
      UpdateKeepsTrack(cache, history, ttl, last, key, now, LIMIT);
      last := now;
      if key in cache && now - cache[key] < ttl {
        return true;
      }
      cache := cache[key := now];
      history := history + [Seen(key, now)];
      if |cache| > LIMIT {
        Sweep(now);
      }
      dup := false;
    }

    method Sweep(now: int)
      modifies this`cache
      ensures cache == Swept(old(cache), now, ttl)
    {
      ghost var c := cache;
      var todo := cache.Keys;
      while todo != {}
        invariant todo <= c.Keys
        invariant cache.Keys <= c.Keys && forall k :: k in cache ==> cache[k] == c[k]
        invariant forall k :: k in c ==> (k in cache <==> k in todo || now - c[k] <= ttl)
        decreases todo
      {
        var k := Pick(todo);
        if now - cache[k] > ttl {
          cache := cache - {k};
        }
        todo := todo - {k};
      }
    }
  }
}
