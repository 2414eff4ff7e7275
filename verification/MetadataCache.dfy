// The byte-budgeted LRU of upstream metadata responses, with expiry.
//
// The class is the cache as it runs, over a map, an order list and a byte total, with its loops.
// `Cache` is the same state as a value; `Do` gives the effect and the answer of one call on it. The
// reference is `Recall`, a plain timed map without a budget.
module MetadataCache {
  import opened Wrappers

  type Bytes = seq<bv8>

  // Times are instants on the clock the caller reads.
  datatype Entry = Entry(body: Bytes, contentType: string, etag: string, lastModified: int, expires: int, size: nat)

  // ---- order lists ----

  // The list without the first occurrence of k.
  function Without(order: seq<string>, k: string): (r: seq<string>)
    ensures k !in order ==> r == order
  {
    if order == [] then []
    else if order[0] == k then order[1..]
    else [order[0]] + Without(order[1..], k)
  }

  predicate Distinct(order: seq<string>) {
    order == [] || (order[0] !in order[1..] && Distinct(order[1..]))
  }

  function Sum(order: seq<string>, entries: map<string, Entry>): nat {
    if order == [] then 0
    else (if order[0] in entries then entries[order[0]].size else 0) + Sum(order[1..], entries)
  }

  lemma {:induction false} WithoutMembers(order: seq<string>, k: string)
    requires Distinct(order)
    ensures Distinct(Without(order, k))
    ensures forall l :: l in Without(order, k) <==> l in order && l != k
  {
    if order != [] && order[0] != k {
      WithoutMembers(order[1..], k);
      var rest := Without(order[1..], k);
      assert ([order[0]] + rest)[1..] == rest;
    }
  }

  lemma {:induction false} WithoutSum(order: seq<string>, k: string, entries: map<string, Entry>)
    requires k in order && k in entries
    ensures Sum(order, entries) == Sum(Without(order, k), entries) + entries[k].size
    ensures |Without(order, k)| == |order| - 1
  {
    if order[0] != k {
      WithoutSum(order[1..], k, entries);
      var rest := Without(order[1..], k);
      assert ([order[0]] + rest)[1..] == rest;
    }
  }

  lemma {:induction false} AppendDistinct(order: seq<string>, k: string)
    requires Distinct(order) && k !in order
    ensures Distinct(order + [k])
  {
    if order != [] {
      AppendDistinct(order[1..], k);
      assert (order + [k])[1..] == order[1..] + [k];
    }
  }

  lemma {:induction false} SumSplit(a: seq<string>, b: seq<string>, entries: map<string, Entry>)
    ensures Sum(a + b, entries) == Sum(a, entries) + Sum(b, entries)
  {
    if a == [] {
      assert a + b == b;
    } else {
      assert (a + b)[1..] == a[1..] + b;
      SumSplit(a[1..], b, entries);
    }
  }

  // The sum looks only at the keys listed.
  lemma {:induction false} SumLocal(order: seq<string>, m: map<string, Entry>, n: map<string, Entry>)
    requires forall k :: k in order ==> (k in m <==> k in n) && (k in m ==> m[k].size == n[k].size)
    ensures Sum(order, m) == Sum(order, n)
  {
    if order != [] {
      SumLocal(order[1..], m, n);
    }
  }

  // ---- the cache as a value ----

  datatype Cache = Cache(entries: map<string, Entry>, order: seq<string>, bytesUsed: int, maxBytes: int) {
    // The order list enumerates the keys once each, the total is the sum of the sizes and within
    // the budget, and a cache without a budget is empty.
    ghost predicate Valid() {
      && Distinct(order)
      && (forall k :: k in order <==> k in entries)
      && (forall k :: k in entries ==> entries[k].size == |entries[k].body|)
      && bytesUsed == Sum(order, entries)
      && (if maxBytes > 0 then bytesUsed <= maxBytes else entries == map[])
    }

    function Remove(k: string): Cache {
      if k !in entries then this
      else Cache(entries - {k}, Without(order, k), bytesUsed - entries[k].size, maxBytes)
    }

    function Touch(k: string): Cache {
      if k in order then this.(order := Without(order, k) + [k]) else this
    }

    function Renew(k: string, expires: int): Cache
      requires k in entries
    {
      this.(entries := entries[k := entries[k].(expires := expires)])
    }

    // The cache after oldest-first eviction to make room for `need` bytes. Removing the oldest key
    // shortens the list in every valid cache.
    function Evict(need: nat): (r: Cache)
      ensures r.maxBytes == maxBytes
      decreases |order|
    {
      if bytesUsed + need > maxBytes && |order| > 0 && |Remove(order[0]).order| < |order|
      then Remove(order[0]).Evict(need)
      else this
    }

    function Add(k: string, e: Entry): Cache {
      Cache(entries[k := e], order + [k], bytesUsed + e.size, maxBytes)
    }
  }

  datatype Call =
    | Get(key: string, now: int)
    | Put(key: string, body: Bytes, contentType: string, etag: string, lastModified: int, ttl: int, now: int)
    | Refresh(key: string, ttl: int, now: int)

  datatype Answer = Miss | Hit(entry: Entry) | Refreshed(found: bool) | Stored

  function Fresh(p: Call): Entry
    requires p.Put?
  {
    Entry(p.body, p.contentType, p.etag, p.lastModified, p.now + p.ttl, |p.body|)
  }

  function Do(c: Cache, call: Call): (Cache, Answer) {
    match call
    case Get(key, now) =>
      if c.maxBytes <= 0 || key !in c.entries then (c, Miss)
      else if now > c.entries[key].expires then (c.Remove(key), Miss)
      else (c.Touch(key), Hit(c.entries[key]))
    case Put(key, body, _, _, _, ttl, _) =>
      if c.maxBytes <= 0 || ttl <= 0 then (c, Stored)
      else if |body| > c.maxBytes then (c.Remove(key), Stored)
      else (c.Remove(key).Evict(|body|).Add(key, Fresh(call)), Stored)
    case Refresh(key, ttl, now) =>
      if c.maxBytes <= 0 || key !in c.entries then (c, Refreshed(false))
      else (c.Renew(key, now + ttl).Touch(key), Refreshed(true))
  }

  function Start(maxBytes: int): Cache {
    Cache(map[], [], 0, maxBytes)
  }

  function Final(maxBytes: int, calls: seq<Call>): Cache {
    if calls == [] then Start(maxBytes) else Do(Final(maxBytes, calls[..|calls| - 1]), calls[|calls| - 1]).0
  }

  // The answer to the i-th call of a run.
  function AnswerAt(maxBytes: int, calls: seq<Call>, i: nat): Answer
    requires i < |calls|
  {
    Do(Final(maxBytes, calls[..i]), calls[i]).1
  }

  // ---- what each part of a call does to a valid cache ----

  lemma RemoveKeepsValid(c: Cache, k: string)
    requires c.Valid()
    ensures var r := c.Remove(k);
      && r.Valid() && k !in r.entries
      && |r.order| == |c.order| - (if k in c.entries then 1 else 0)
      && c.bytesUsed == r.bytesUsed + if k in c.entries then c.entries[k].size else 0
  {
    if k in c.entries {
      var r := c.Remove(k);
      WithoutMembers(c.order, k);
      WithoutSum(c.order, k, c.entries);
      SumLocal(r.order, c.entries, r.entries);
    }
  }

  lemma TouchKeepsValid(c: Cache, k: string)
    requires c.Valid()
    ensures c.Touch(k).Valid()
  {
    if k in c.order {
      WithoutMembers(c.order, k);
      WithoutSum(c.order, k, c.entries);
      AppendDistinct(Without(c.order, k), k);
      SumSplit(Without(c.order, k), [k], c.entries);
      assert Sum([k], c.entries) == c.entries[k].size;
    }
  }

  // Eviction drops the oldest n entries, for the least n that makes room, and always makes room for
  // a body within the budget.
  lemma {:induction false} EvictDropsLeastPrefix(c: Cache, need: nat) returns (n: nat)
    requires c.Valid() && c.maxBytes > 0 && need <= c.maxBytes
    ensures n <= |c.order| && c.Evict(need).order == c.order[n..]
    ensures forall k :: k in c.Evict(need).entries <==> k in c.order[n..]
    ensures forall k :: k in c.Evict(need).entries ==> k in c.entries && c.Evict(need).entries[k] == c.entries[k]
    ensures c.Evict(need).Valid() && c.Evict(need).maxBytes == c.maxBytes
    ensures c.Evict(need).bytesUsed + need <= c.maxBytes
    ensures forall m :: 0 <= m < n ==> Sum(c.order[m..], c.entries) + need > c.maxBytes
    decreases |c.order|
  {
    if c.bytesUsed + need > c.maxBytes && |c.order| > 0 {
      RemoveKeepsValid(c, c.order[0]);
      var r := c.Remove(c.order[0]);
      assert r.order == c.order[1..];
      n := EvictDropsLeastPrefix(r, need);
      assert c.order[1..][n..] == c.order[n + 1..];
      forall m | 0 <= m < n + 1
        ensures Sum(c.order[m..], c.entries) + need > c.maxBytes
      {
        if m == 0 {
          assert c.order[0..] == c.order;
        } else {
          assert c.order[1..][m - 1..] == c.order[m..];
          SumLocal(c.order[m..], c.entries, r.entries);
        }
      }
      n := n + 1;
    } else {
      n := 0;
      assert c.order[0..] == c.order;
    }
  }

  lemma AddKeepsValid(c: Cache, k: string, e: Entry)
    requires c.Valid() && c.maxBytes > 0 && k !in c.entries
    requires e.size == |e.body| && c.bytesUsed + e.size <= c.maxBytes
    ensures c.Add(k, e).Valid()
  {
    var r := c.Add(k, e);
    AppendDistinct(c.order, k);
    SumSplit(c.order, [k], r.entries);
    SumLocal(c.order, c.entries, r.entries);
    assert Sum([k], r.entries) == e.size;
  }

  lemma PutKeepsValid(c: Cache, call: Call)
    requires c.Valid() && call.Put?
    ensures Do(c, call).0.Valid()
  {
    RemoveKeepsValid(c, call.key);
    if c.maxBytes > 0 && |call.body| <= c.maxBytes {
      var r := c.Remove(call.key);
      var n := EvictDropsLeastPrefix(r, |call.body|);
      AddKeepsValid(r.Evict(|call.body|), call.key, Fresh(call));
    }
  }

  lemma RenewKeepsValid(c: Cache, k: string, expires: int)
    requires c.Valid() && k in c.entries
    ensures c.Renew(k, expires).Valid()
  {
    SumLocal(c.order, c.entries, c.Renew(k, expires).entries);
  }

  lemma GetKeepsValid(c: Cache, call: Call)
    requires c.Valid() && call.Get?
    ensures Do(c, call).0.Valid()
  {
    RemoveKeepsValid(c, call.key);
    TouchKeepsValid(c, call.key);
  }

  lemma RefreshKeepsValid(c: Cache, call: Call)
    requires c.Valid() && call.Refresh?
    ensures Do(c, call).0.Valid()
  {
    if c.maxBytes > 0 && call.key in c.entries {
      var r := c.Renew(call.key, call.now + call.ttl);
      assert r.Valid() by { RenewKeepsValid(c, call.key, call.now + call.ttl); }
      assert r.Touch(call.key).Valid() by { TouchKeepsValid(r, call.key); }
      assert Do(c, call).0 == r.Touch(call.key);
    }
  }

  lemma DoKeepsValid(c: Cache, call: Call)
    requires c.Valid()
    ensures Do(c, call).0.Valid()
  {
    match call
    case Get(_, _) => GetKeepsValid(c, call);
    case Put(_, _, _, _, _, _, _) => PutKeepsValid(c, call);
    case Refresh(_, _, _) => RefreshKeepsValid(c, call);
  }

  lemma {:induction false} EveryReachableCacheIsValid(maxBytes: int, calls: seq<Call>)
    ensures Final(maxBytes, calls).Valid() && Final(maxBytes, calls).maxBytes == maxBytes
  {
    if calls != [] {
      EveryReachableCacheIsValid(maxBytes, calls[..|calls| - 1]);
      DoKeepsValid(Final(maxBytes, calls[..|calls| - 1]), calls[|calls| - 1]);
    }
  }

  // ---- what each call leaves and answers, exactly ----

  // The list from k on.
  function From(order: seq<string>, k: string): seq<string> {
    if order == [] || order[0] == k then order else From(order[1..], k)
  }

  lemma GetLeaves(c: Cache, call: Call)
    requires c.Valid() && call.Get?
    ensures var (c', answer) := Do(c, call);
      if call.key !in c.entries then c' == c && answer == Miss
      else if call.now > c.entries[call.key].expires then
        c'.entries == c.entries - {call.key} && c'.order == Without(c.order, call.key) && answer == Miss
      else
        && c'.entries == c.entries && c'.order == Without(c.order, call.key) + [call.key]
        && answer == Hit(c.entries[call.key])
  {
  }

  lemma RefreshLeaves(c: Cache, call: Call)
    requires c.Valid() && call.Refresh?
    ensures var (c', answer) := Do(c, call);
      if call.key !in c.entries then c' == c && answer == Refreshed(false)
      else
        && c'.entries.Keys == c.entries.Keys && answer == Refreshed(true)
        && (forall k :: k in c.entries && k != call.key ==> c'.entries[k] == c.entries[k])
        && c'.entries[call.key] == c.entries[call.key].(expires := call.now + call.ttl)
        && c'.order == Without(c.order, call.key) + [call.key]
  {
  }

  // A put with no lifetime or no budget does nothing. A body over the budget takes its own key's entry
  // away and leaves every other key, with the order of the others. A body within it is stored as the
  // newest, after dropping the least number of oldest other keys that makes room.
  lemma PutLeaves(c: Cache, call: Call) returns (n: nat)
    requires c.Valid() && call.Put?
    ensures var c', others := Do(c, call).0, Without(c.order, call.key);
      && n <= |others| && Do(c, call).1 == Stored
      && (if c.maxBytes <= 0 || call.ttl <= 0 then c' == c
          else if |call.body| > c.maxBytes then c'.entries == c.entries - {call.key} && c'.order == others
          else
            && c'.order == others[n..] + [call.key]
            && (forall k :: k in c'.entries <==> k == call.key || k in others[n..])
            && (forall k :: k in others[n..] ==> k in c.entries && c'.entries[k] == c.entries[k])
            && c'.entries[call.key] == Entry(call.body, call.contentType, call.etag, call.lastModified,
                                             call.now + call.ttl, |call.body|)
            && Sum(others[n..], c.entries) + |call.body| <= c.maxBytes
            && (n > 0 ==> Sum(others[n - 1..], c.entries) + |call.body| > c.maxBytes))
  {
    n := 0;
    RemoveKeepsValid(c, call.key);
    WithoutMembers(c.order, call.key);
    if c.maxBytes > 0 && call.ttl > 0 && |call.body| <= c.maxBytes {
      n := StoredPutLeaves(c, call);
    }
  }

  lemma StoredPutLeaves(c: Cache, call: Call) returns (n: nat)
    requires c.Valid() && call.Put? && c.maxBytes > 0 && call.ttl > 0 && |call.body| <= c.maxBytes
    ensures var c', others := Do(c, call).0, Without(c.order, call.key);
      && n <= |others| && c'.order == others[n..] + [call.key]
      && (forall k :: k in c'.entries <==> k == call.key || k in others[n..])
      && (forall k :: k in others[n..] ==> k in c.entries && c'.entries[k] == c.entries[k])
      && c'.entries[call.key] == Entry(call.body, call.contentType, call.etag, call.lastModified,
                                       call.now + call.ttl, |call.body|)
      && Sum(others[n..], c.entries) + |call.body| <= c.maxBytes
      && (n > 0 ==> Sum(others[n - 1..], c.entries) + |call.body| > c.maxBytes)
  {
    n := RoomLeaves(c, call.key, |call.body|);
    var room := c.Remove(call.key).Evict(|call.body|);
    assert Do(c, call).0 == room.Add(call.key, Fresh(call));
  }

  // Making room for a body of k drops the least number of oldest other keys.
  lemma RoomLeaves(c: Cache, k: string, need: nat) returns (n: nat)
    requires c.Valid() && c.maxBytes > 0 && need <= c.maxBytes
    ensures var room, others := c.Remove(k).Evict(need), Without(c.order, k);
      && n <= |others| && room.order == others[n..]
      && (forall l :: l in room.entries <==> l in others[n..])
      && (forall l :: l in others[n..] ==> l != k && l in c.entries && room.entries[l] == c.entries[l])
      && Sum(others[n..], c.entries) + need <= c.maxBytes
      && (n > 0 ==> Sum(others[n - 1..], c.entries) + need > c.maxBytes)
  {
    var r := c.Remove(k);
    RemoveKeepsValid(c, k);
    WithoutMembers(c.order, k);
    assert r.order == Without(c.order, k);
    n := EvictDropsLeastPrefix(r, need);
    var room := r.Evict(need);
    assert room.bytesUsed == Sum(room.order, room.entries);
    SumLocal(room.order, room.entries, c.entries);
    if n > 0 {
      SumLocal(r.order[n - 1..], r.entries, c.entries);
    }
  }

  lemma {:induction false} FromIs(order: seq<string>, i: nat)
    requires Distinct(order) && i < |order|
    ensures From(order, order[i]) == order[i..]
  {
    if i == 0 {
      assert order[0..] == order;
    } else {
      FromIs(order[1..], i - 1);
      assert order[1..][i - 1] == order[i] && order[1..][i - 1..] == order[i..];
    }
  }

  lemma SumShrinks(order: seq<string>, n: nat, i: nat, entries: map<string, Entry>)
    requires n <= i <= |order|
    ensures Sum(order[i..], entries) <= Sum(order[n..], entries)
  {
    assert order[n..] == order[n..i] + order[i..];
    SumSplit(order[n..i], order[i..], entries);
  }

  // Exactly which keys a call takes out of the cache. A read takes its own key if expired and a refresh
  // none. A put takes its own key if the body is over the budget, and another key if the body is stored
  // and does not fit together with that key and all other keys accessed since.
  lemma LeavesIff(c: Cache, call: Call, k: string)
    requires c.Valid() && k in c.entries
    ensures k !in Do(c, call).0.entries <==>
      if call.Get? then call.key == k && call.now > c.entries[k].expires
      else if call.Refresh? then false
      else
        && call.ttl > 0
        && if call.key == k then |call.body| > c.maxBytes
           else
             && |call.body| <= c.maxBytes
             && Sum(From(Without(c.order, call.key), k), c.entries) + |call.body| > c.maxBytes
  {
    if call.Get? {
      GetLeaves(c, call);
    } else if call.Refresh? {
      RefreshLeaves(c, call);
    } else {
      WithoutMembers(c.order, call.key);
      if call.key != k && call.ttl > 0 && |call.body| <= c.maxBytes {
        var others := Without(c.order, call.key);
        var n := StoredPutLeaves(c, call);
        var i :| 0 <= i < |others| && others[i] == k;
        FromIs(others, i);
        DroppedIff(others, n, i, c.entries, c.maxBytes - |call.body|);
        assert k !in Do(c, call).0.entries <==> k !in others[n..];
      } else {
        var n := PutLeaves(c, call);
      }
    }
  }

  // A list's shortest front is dropped to bring the rest within a limit: a key goes if and only if the
  // list from it on is over the limit.
  lemma DroppedIff(order: seq<string>, n: nat, i: nat, entries: map<string, Entry>, limit: int)
    requires Distinct(order) && i < |order| && n <= |order|
    requires Sum(order[n..], entries) <= limit
    requires n > 0 ==> Sum(order[n - 1..], entries) > limit
    ensures order[i] !in order[n..] <==> Sum(order[i..], entries) > limit
  {
    if i < n {
      DistinctSplit(order, n, i);
      SumShrinks(order, i, n - 1, entries);
    } else {
      assert order[i] == order[n..][i - n];
      SumShrinks(order, n, i, entries);
    }
  }

  lemma {:induction false} DistinctSplit(order: seq<string>, n: nat, i: nat)
    requires Distinct(order) && i < n <= |order|
    ensures order[i] !in order[n..]
  {
    if i == 0 {
      assert forall k :: k in order[n..] ==> k in order[1..];
    } else {
      DistinctSplit(order[1..], n - 1, i - 1);
      assert order[1..][n - 1..] == order[n..];
    }
  }

  // ---- agreement with a cache that never evicts ----

  // Every key's last put, with the expiry of the last put or refresh, kept until read after expiry.
  function DoRecall(m: map<string, Entry>, call: Call): (map<string, Entry>, Answer) {
    match call
    case Get(key, now) =>
      if key !in m then (m, Miss)
      else if now > m[key].expires then (m - {key}, Miss)
      else (m, Hit(m[key]))
    case Put(key, _, _, _, _, ttl, _) =>
      (if ttl <= 0 then m else m[key := Fresh(call)], Stored)
    case Refresh(key, ttl, now) =>
      if key !in m then (m, Refreshed(false))
      else (m[key := m[key].(expires := now + ttl)], Refreshed(true))
  }

  function Recall(calls: seq<Call>): map<string, Entry> {
    if calls == [] then map[] else DoRecall(Recall(calls[..|calls| - 1]), calls[|calls| - 1]).0
  }

  function RecallAt(calls: seq<Call>, i: nat): Answer
    requires i < |calls|
  {
    DoRecall(Recall(calls[..i]), calls[i]).1
  }

  // Whatever the cache still holds is what the reference holds.
  ghost predicate Agrees(c: Cache, m: map<string, Entry>) {
    forall k :: k in c.entries ==> k in m && m[k] == c.entries[k]
  }

  lemma DoAgrees(c: Cache, m: map<string, Entry>, call: Call)
    requires c.Valid() && Agrees(c, m)
    ensures Agrees(Do(c, call).0, DoRecall(m, call).0)
    ensures Do(c, call).1 in {Miss, Refreshed(false)} || Do(c, call).1 == DoRecall(m, call).1
  {
    if call.Put? {
      PutAgrees(c, m, call);
    }
  }

  lemma PutAgrees(c: Cache, m: map<string, Entry>, call: Call)
    requires c.Valid() && Agrees(c, m) && call.Put?
    ensures Agrees(Do(c, call).0, DoRecall(m, call).0)
  {
    if c.maxBytes > 0 && call.ttl > 0 && |call.body| <= c.maxBytes {
      RemoveKeepsValid(c, call.key);
      var r := c.Remove(call.key);
      var n := EvictDropsLeastPrefix(r, |call.body|);
      assert Do(c, call).0.entries == r.Evict(|call.body|).entries[call.key := Fresh(call)];
    }
  }

  lemma {:induction false} RunAgrees(maxBytes: int, calls: seq<Call>)
    ensures Agrees(Final(maxBytes, calls), Recall(calls))
  {
    if calls != [] {
      var before := calls[..|calls| - 1];
      RunAgrees(maxBytes, before);
      EveryReachableCacheIsValid(maxBytes, before);
      DoAgrees(Final(maxBytes, before), Recall(before), calls[|calls| - 1]);
    }
  }

  // Eviction only turns hits into misses and found into not found; it never changes an answer.
  lemma HitsAreNeverWrong(maxBytes: int, calls: seq<Call>, i: nat)
    requires i < |calls|
    ensures AnswerAt(maxBytes, calls, i) in {Miss, Refreshed(false)}
         || AnswerAt(maxBytes, calls, i) == RecallAt(calls, i)
  {
    RunAgrees(maxBytes, calls[..i]);
    EveryReachableCacheIsValid(maxBytes, calls[..i]);
    DoAgrees(Final(maxBytes, calls[..i]), Recall(calls[..i]), calls[i]);
  }

  // ---- agreement with the history of calls ----

  // The last put of k that stores anything.
  function LastPut(calls: seq<Call>, k: string): (r: Option<nat>)
    ensures r.Some? ==> r.value < |calls| && calls[r.value].Put? && calls[r.value].key == k
  {
    if calls == [] then None
    else
      var n := |calls| - 1;
      if calls[n].Put? && calls[n].key == k && calls[n].ttl > 0 then Some(n) else LastPut(calls[..n], k)
  }

  // The last call that gave k a lifetime: such a put, or a refresh.
  function LastTimed(calls: seq<Call>, k: string): (r: Option<nat>)
    ensures r.Some? ==> r.value < |calls| && !calls[r.value].Get? && calls[r.value].key == k
  {
    if calls == [] then None
    else
      var n := |calls| - 1;
      if calls[n].key == k && (calls[n].Refresh? || (calls[n].Put? && calls[n].ttl > 0)) then Some(n)
      else LastTimed(calls[..n], k)
  }

  // The entry has the body, type, tag and date of the last put, and the expiry of the last put or refresh.
  ghost predicate IsFromHistory(e: Entry, calls: seq<Call>, k: string) {
    && LastPut(calls, k).Some? && LastTimed(calls, k).Some?
    && var p, t := calls[LastPut(calls, k).value], calls[LastTimed(calls, k).value];
      && e.body == p.body && e.contentType == p.contentType && e.etag == p.etag && e.lastModified == p.lastModified
      && e.size == |p.body| && e.expires == t.now + t.ttl
  }

  lemma {:induction false} EntriesAreFromHistory(maxBytes: int, calls: seq<Call>, k: string)
    requires k in Final(maxBytes, calls).entries
    ensures IsFromHistory(Final(maxBytes, calls).entries[k], calls, k)
  {
    var n := |calls| - 1;
    var before, call := calls[..n], calls[n];
    var c := Final(maxBytes, before);
    EveryReachableCacheIsValid(maxBytes, before);
    DoAgrees(c, c.entries, call);
    assert Do(c, call).0.entries[k] == DoRecall(c.entries, call).0[k];
    if !(call.Put? && call.key == k && call.ttl > 0) {
      EntriesAreFromHistory(maxBytes, before, k);
    }
  }

  // Over every run a hit returns what the key's last put stored, with the lifetime its last put or
  // refresh gave it and not yet past it, whatever was evicted in between.
  lemma HitIsLastPutLastRefresh(maxBytes: int, calls: seq<Call>, i: nat)
    requires i < |calls| && AnswerAt(maxBytes, calls, i).Hit?
    ensures calls[i].Get? && IsFromHistory(AnswerAt(maxBytes, calls, i).entry, calls[..i], calls[i].key)
    ensures calls[i].now <= AnswerAt(maxBytes, calls, i).entry.expires
  {
    EntriesAreFromHistory(maxBytes, calls[..i], calls[i].key);
  }

  // A put that the budget cannot take without dropping another key's entry.
  predicate OverBudget(c: Cache, call: Call) {
    call.Put? && call.ttl > 0 && c.Remove(call.key).bytesUsed + |call.body| > c.maxBytes
  }

  lemma WithinBudgetStep(c: Cache, call: Call)
    requires c.Valid() && c.maxBytes > 0 && !OverBudget(c, call)
    ensures (Do(c, call).0.entries, Do(c, call).1) == DoRecall(c.entries, call)
  {
    if call.Put? {
      RemoveKeepsValid(c, call.key);
      if call.ttl > 0 {
        assert (c.entries - {call.key})[call.key := Fresh(call)] == c.entries[call.key := Fresh(call)];
      }
    }
  }

  // No put of the run goes over the budget.
  predicate WithinBudget(maxBytes: int, calls: seq<Call>) {
    if calls == [] then true
    else
      var n := |calls| - 1;
      WithinBudget(maxBytes, calls[..n]) && !OverBudget(Final(maxBytes, calls[..n]), calls[n])
  }

  lemma {:induction false} WithinBudgetSoFar(maxBytes: int, calls: seq<Call>, i: nat)
    requires WithinBudget(maxBytes, calls) && i <= |calls|
    ensures WithinBudget(maxBytes, calls[..i])
  {
    if i == |calls| {
      assert calls[..i] == calls;
    } else {
      var before := calls[..|calls| - 1];
      assert before[..i] == calls[..i];
      WithinBudgetSoFar(maxBytes, before, i);
    }
  }

  lemma {:induction false} WithinBudgetSameEntries(maxBytes: int, calls: seq<Call>)
    requires maxBytes > 0 && WithinBudget(maxBytes, calls)
    ensures Final(maxBytes, calls).entries == Recall(calls)
  {
    if calls != [] {
      var before := calls[..|calls| - 1];
      WithinBudgetSameEntries(maxBytes, before);
      EveryReachableCacheIsValid(maxBytes, before);
      WithinBudgetStep(Final(maxBytes, before), calls[|calls| - 1]);
    }
  }

  lemma WithinBudgetSameAnswer(maxBytes: int, calls: seq<Call>, i: nat)
    requires maxBytes > 0 && WithinBudget(maxBytes, calls) && i < |calls|
    ensures AnswerAt(maxBytes, calls, i) == RecallAt(calls, i)
  {
    var upto := calls[..i + 1];
    assert upto[..i] == calls[..i] && upto[i] == calls[i];
    WithinBudgetSoFar(maxBytes, calls, i + 1);
    WithinBudgetSameEntries(maxBytes, calls[..i]);
    EveryReachableCacheIsValid(maxBytes, calls[..i]);
    WithinBudgetStep(Final(maxBytes, calls[..i]), calls[i]);
  }

  // While no put goes over the budget, the cache is the reference and every answer is the same.
  lemma WithinBudgetNothingIsForgotten(maxBytes: int, calls: seq<Call>)
    requires maxBytes > 0 && WithinBudget(maxBytes, calls)
    ensures Final(maxBytes, calls).entries == Recall(calls)
    ensures forall i :: 0 <= i < |calls| ==> AnswerAt(maxBytes, calls, i) == RecallAt(calls, i)
  {
    WithinBudgetSameEntries(maxBytes, calls);
    forall i | 0 <= i < |calls|
      ensures AnswerAt(maxBytes, calls, i) == RecallAt(calls, i)
    {
      WithinBudgetSameAnswer(maxBytes, calls, i);
    }
  }

  // ---- recency ----

  // The call leaves its key as the most recently accessed entry.
  predicate Touches(c: Cache, call: Call) {
    match Do(c, call).1
    case Hit(_) => true
    case Refreshed(found) => found
    case Miss => false
    case Stored => c.maxBytes > 0 && call.Put? && call.ttl > 0 && |call.body| <= c.maxBytes
  }

  // The number of the last call that accessed k, counting from 1.
  function LastTouch(maxBytes: int, calls: seq<Call>, k: string): nat {
    if calls == [] then 0
    else
      var n := |calls| - 1;
      if calls[n].key == k && Touches(Final(maxBytes, calls[..n]), calls[n]) then n + 1
      else LastTouch(maxBytes, calls[..n], k)
  }

  function Rank(maxBytes: int, calls: seq<Call>): string -> nat {
    k => LastTouch(maxBytes, calls, k)
  }

  ghost predicate Increasing(order: seq<string>, rank: string -> nat) {
    order == [] || ((forall l :: l in order[1..] ==> rank(order[0]) < rank(l)) && Increasing(order[1..], rank))
  }

  lemma {:induction false} WithoutShrinks(order: seq<string>, k: string, l: string)
    requires l in Without(order, k)
    ensures l in order
  {
    if order[0] != k && l != order[0] {
      WithoutShrinks(order[1..], k, l);
    }
  }

  lemma {:induction false} WithoutIncreasing(order: seq<string>, k: string, rank: string -> nat)
    requires Increasing(order, rank)
    ensures Increasing(Without(order, k), rank)
  {
    if order != [] && order[0] != k {
      WithoutIncreasing(order[1..], k, rank);
      var rest := Without(order[1..], k);
      assert ([order[0]] + rest)[1..] == rest;
      forall l | l in rest
        ensures rank(order[0]) < rank(l)
      {
        WithoutShrinks(order[1..], k, l);
      }
    }
  }

  lemma {:induction false} SuffixIncreasing(order: seq<string>, n: nat, rank: string -> nat)
    requires Increasing(order, rank) && n <= |order|
    ensures Increasing(order[n..], rank)
  {
    if n > 0 {
      SuffixIncreasing(order[1..], n - 1, rank);
      assert order[1..][n - 1..] == order[n..];
    } else {
      assert order[0..] == order;
    }
  }

  // A list stays increasing under a new rank that agrees on it, also with a later key appended.
  lemma {:induction false} AppendIncreasing(order: seq<string>, last: seq<string>, was: string -> nat,
                                            rank: string -> nat)
    requires Increasing(order, was) && |last| <= 1
    requires forall l :: l in order ==> rank(l) == was(l)
    requires forall l, k :: l in order && k in last ==> rank(l) < rank(k)
    ensures Increasing(order + last, rank)
  {
    if order != [] {
      AppendIncreasing(order[1..], last, was, rank);
      assert (order + last)[1..] == order[1..] + last;
    } else {
      assert order + last == last;
    }
  }

  lemma {:induction false} IncreasingAt(order: seq<string>, rank: string -> nat, i: nat, j: nat)
    requires Increasing(order, rank) && i < j < |order|
    ensures rank(order[i]) < rank(order[j])
  {
    if i > 0 {
      IncreasingAt(order[1..], rank, i - 1, j - 1);
    } else {
      assert order[1..][j - 1] == order[j];
    }
  }

  // What a call does to the order list: it may drop entries and then append the key it accessed.
  lemma DoKeepsRelativeOrder(c: Cache, call: Call, rank: string -> nat) returns (rest: seq<string>)
    requires c.Valid() && Increasing(c.order, rank)
    ensures Increasing(rest, rank)
    ensures Do(c, call).0.order == if Touches(c, call) then rest + [call.key] else rest
    ensures Touches(c, call) ==> call.key !in rest
  {
    if call.Put? && Touches(c, call) {
      rest := PutKeepsRelativeOrder(c, call, rank);
    } else if Do(c, call).0 == c && !Touches(c, call) {
      rest := c.order;
    } else {
      rest := Without(c.order, call.key);
      WithoutIncreasing(c.order, call.key, rank);
      WithoutMembers(c.order, call.key);
    }
  }

  lemma PutKeepsRelativeOrder(c: Cache, call: Call, rank: string -> nat) returns (rest: seq<string>)
    requires c.Valid() && Increasing(c.order, rank) && call.Put? && Touches(c, call)
    ensures Increasing(rest, rank)
    ensures Do(c, call).0.order == rest + [call.key] && call.key !in rest
  {
    var r := c.Remove(call.key);
    WithoutIncreasing(c.order, call.key, rank);
    RemoveKeepsValid(c, call.key);
    assert r.order == Without(c.order, call.key);
    var n := EvictDropsLeastPrefix(r, |call.body|);
    rest := r.order[n..];
    SuffixIncreasing(r.order, n, rank);
    assert call.key !in r.order;
  }

  lemma {:induction false} TouchIsPast(maxBytes: int, calls: seq<Call>, k: string)
    ensures LastTouch(maxBytes, calls, k) <= |calls|
  {
    if calls != [] {
      TouchIsPast(maxBytes, calls[..|calls| - 1], k);
    }
  }

  lemma RankAfter(maxBytes: int, calls: seq<Call>, k: string)
    requires calls != []
    ensures var n := |calls| - 1;
      var rank := Rank(maxBytes, calls[..n]);
      && rank(k) <= n
      && Rank(maxBytes, calls)(k)
         == if Touches(Final(maxBytes, calls[..n]), calls[n]) && k == calls[n].key then n + 1 else rank(k)
  {
    TouchIsPast(maxBytes, calls[..|calls| - 1], k);
  }

  lemma OrderStep(maxBytes: int, calls: seq<Call>, rest: seq<string>, last: seq<string>)
    requires calls != [] && Increasing(rest, Rank(maxBytes, calls[..|calls| - 1]))
    requires var n := |calls| - 1;
      if Touches(Final(maxBytes, calls[..n]), calls[n]) then last == [calls[n].key] && calls[n].key !in rest
      else last == []
    ensures Increasing(rest + last, Rank(maxBytes, calls))
  {
    forall k
      ensures k in rest ==> Rank(maxBytes, calls)(k) == Rank(maxBytes, calls[..|calls| - 1])(k) < |calls|
      ensures k in last ==> Rank(maxBytes, calls)(k) == |calls|
    {
      RankAfter(maxBytes, calls, k);
    }
    AppendIncreasing(rest, last, Rank(maxBytes, calls[..|calls| - 1]), Rank(maxBytes, calls));
  }

  lemma {:induction false} OrderIncreases(maxBytes: int, calls: seq<Call>)
    ensures Increasing(Final(maxBytes, calls).order, Rank(maxBytes, calls))
  {
    if calls != [] {
      var n := |calls| - 1;
      var before, call := calls[..n], calls[n];
      OrderIncreases(maxBytes, before);
      EveryReachableCacheIsValid(maxBytes, before);
      var rest := DoKeepsRelativeOrder(Final(maxBytes, before), call, Rank(maxBytes, before));
      var last := if Touches(Final(maxBytes, before), call) then [call.key] else [];
      assert rest + last == Final(maxBytes, calls).order;
      OrderStep(maxBytes, calls, rest, last);
    }
  }

  // In every reachable cache the order list runs from the least to the most recently accessed key.
  lemma OrderIsByLastAccess(maxBytes: int, calls: seq<Call>)
    ensures var order := Final(maxBytes, calls).order;
      forall i, j :: 0 <= i < j < |order| ==>
        LastTouch(maxBytes, calls, order[i]) < LastTouch(maxBytes, calls, order[j])
  {
    OrderIncreases(maxBytes, calls);
    var order := Final(maxBytes, calls).order;
    forall i, j | 0 <= i < j < |order|
      ensures LastTouch(maxBytes, calls, order[i]) < LastTouch(maxBytes, calls, order[j])
    {
      IncreasingAt(order, Rank(maxBytes, calls), i, j);
    }
  }

  // ---- the cache as it runs ----

  lemma {:induction false} WithoutSplit(order: seq<string>, i: nat)
    requires i < |order| && order[i] !in order[..i]
    ensures Without(order, order[i]) == order[..i] + order[i + 1..]
  {
    if i > 0 {
      assert order[1..][..i - 1] == order[..i][1..];
      WithoutSplit(order[1..], i - 1);
      assert order[..i] == [order[0]] + order[1..][..i - 1];
    }
  }

  lemma PutIs(c: Cache, removed: Cache, room: Cache, call: Call)
    requires call.Put? && c.maxBytes > 0 && call.ttl > 0 && |call.body| <= c.maxBytes
    requires removed == c.Remove(call.key) && room == removed.Evict(|call.body|)
    ensures Do(c, call).0 == room.Add(call.key, Fresh(call))
  {
  }

  class MetadataCache {
    var entries: map<string, Entry>
    var order: seq<string>
    var maxBytes: int
    var bytesUsed: int

    function View(): Cache
      reads this
    {
      Cache(entries, order, bytesUsed, maxBytes)
    }

    constructor (maxBytes: int)
      ensures View() == Start(maxBytes)
    {
      entries := map[];
      order := [];
      bytesUsed := 0;
      this.maxBytes := maxBytes;
    }

    // The position of key in the order list, or its length.
    method Position(key: string) returns (i: nat)
      ensures i <= |order| && key !in order[..i]
      ensures i < |order| ==> order[i] == key
    {
      i := 0;
      while i < |order|
        invariant i <= |order| && key !in order[..i]
      {
        if order[i] == key { return; }
        i := i + 1;
      }
    }

    method RemoveLocked(key: string)
      modifies this
      ensures View() == old(View()).Remove(key)
    {
      if key !in entries { return; }
      bytesUsed := bytesUsed - entries[key].size;
      entries := entries - {key};
      var i := Position(key);
      if i < |order| {
        WithoutSplit(order, i);
        order := order[..i] + order[i + 1..];
      } else {
        assert order[..i] == order;
      }
    }

    method TouchLocked(key: string)
      modifies this
      ensures View() == old(View()).Touch(key)
    {
      var i := Position(key);
      if i < |order| {
        WithoutSplit(order, i);
        order := order[..i] + order[i + 1..];
        order := order + [key];
      } else {
        assert order[..i] == order;
      }
    }

    // Put's eviction loop; it ends because each round shortens the order list.
    method EvictFor(need: nat)
      requires View().Valid()
      modifies this
      ensures View() == old(View()).Evict(need)
    {
      while bytesUsed + need > maxBytes && |order| > 0
        invariant View().Valid() && View().Evict(need) == old(View()).Evict(need)
        decreases |order|
      {
        RemoveKeepsValid(View(), order[0]);
        RemoveLocked(order[0]);
      }
    }

    method Get(key: string, now: int) returns (e: Option<Entry>)
      modifies this
      ensures (View(), if e.Some? then Hit(e.value) else Miss) == Do(old(View()), Call.Get(key, now))
    {
      if maxBytes <= 0 { return None; }
      if key !in entries { return None; }
      e := Some(entries[key]);
      if now > entries[key].expires {
        RemoveLocked(key);
        return None;
      }
      TouchLocked(key);
    }

    method Put(key: string, body: Bytes, contentType: string, etag: string, lastModified: int, ttl: int, now: int)
      requires View().Valid()
      modifies this
      ensures View() == Do(old(View()), Call.Put(key, body, contentType, etag, lastModified, ttl, now)).0
    {
      if maxBytes <= 0 || ttl <= 0 { return; }
      RemoveKeepsValid(View(), key);
      RemoveLocked(key);
      if |body| > maxBytes { return; }
      ghost var r := View();
      EvictFor(|body|);
      ghost var room := View();
      var e := Entry(body, contentType, etag, lastModified, now + ttl, |body|);
      entries := entries[key := e];
      order := order + [key];
      bytesUsed := bytesUsed + e.size;
      assert View() == room.Add(key, e);
      PutIs(old(View()), r, room, Call.Put(key, body, contentType, etag, lastModified, ttl, now));
    }

    method Refresh(key: string, ttl: int, now: int) returns (found: bool)
      modifies this
      ensures (View(), Refreshed(found)) == Do(old(View()), Call.Refresh(key, ttl, now))
    {
      if maxBytes <= 0 { return false; }
      if key !in entries { return false; }
      entries := entries[key := entries[key].(expires := now + ttl)];
      TouchLocked(key);
      return true;
    }
  }
}
