/** Account objects and the `accounts` array that lists them. */
module Accounts {
  import opened Wrappers
  import opened Ledger
  import Usernames

  /** `new Date().toISOString()`: the clock is an input, so a timestamp is
      just the string the page stores. */
  type Timestamp = string

  /** The identity of an account object. The page keeps references to
      objects, and `currentAcc` can still point at an object after it has
      been spliced out of `accounts`, so objects are addressed by identity. */
  type ObjId = nat

  /** One account object. `dates`, `currency` and `locale` are missing
      (`None`) on the two demo accounts that never got them;
      `cachedBalance` is the `balance` property `calcBalance` writes, missing
      until the first time it runs on this object. */
  datatype Account = Account(
    owner: string,
    username: string,
    pin: int,
    movements: seq<int>,
    dates: Option<seq<Timestamp>>,
    rate: real,
    currency: Option<string>,
    locale: Option<string>,
    cachedBalance: Option<int>)

  /** `createUsernames`: each account's username is derived from its owner;
      nothing else about the accounts changes. */
  function CreateUsernames(accs: seq<Account>): (r: seq<Account>)
    ensures |r| == |accs|
    ensures forall i :: 0 <= i < |accs| ==> r[i].username == Usernames.Username(accs[i].owner)
    ensures forall i :: 0 <= i < |accs| ==> r[i].(username := accs[i].username) == accs[i]
  {
    seq(|accs|, i requires 0 <= i < |accs| => accs[i].(username := Usernames.Username(accs[i].owner)))
  }

  /** Every listed object exists. */
  ghost predicate IdsIn(heap: seq<Account>, ids: seq<ObjId>)
  {
    forall k :: 0 <= k < |ids| ==> ids[k] < |heap|
  }

  /** No two listed objects share a username. */
  ghost predicate UniqueNames(heap: seq<Account>, ids: seq<ObjId>)
    requires IdsIn(heap, ids)
  {
    forall j, k :: 0 <= j < k < |ids| ==> heap[ids[j]].username != heap[ids[k]].username
  }

  /** `accounts.findIndex(acc => acc.username === user)`: the position of the
      first account with that username, or -1 when there is none. */
  function FindIndex(heap: seq<Account>, ids: seq<ObjId>, user: string): (r: int)
    requires IdsIn(heap, ids)
    ensures -1 <= r < |ids|
    ensures r == -1 <==> forall k :: 0 <= k < |ids| ==> heap[ids[k]].username != user
    ensures r >= 0 ==> heap[ids[r]].username == user
    ensures r >= 0 ==> forall k :: 0 <= k < r ==> heap[ids[k]].username != user
  {
    if |ids| == 0 then -1
    else if heap[ids[0]].username == user then 0
    else
      var r := FindIndex(heap, ids[1..], user);
      if r == -1 then -1 else r + 1
  }

  /** `accounts.find(acc => acc.username === user)`: the first account with
      that username, or `undefined`. */
  function Find(heap: seq<Account>, ids: seq<ObjId>, user: string): (r: Option<ObjId>)
    requires IdsIn(heap, ids)
    ensures r.None? <==> forall k :: 0 <= k < |ids| ==> heap[ids[k]].username != user
    ensures r.Some? ==> r.value in ids && r.value < |heap| && heap[r.value].username == user
    ensures r.Some? ==> r.value == ids[FindIndex(heap, ids, user)]
  {
    var k := FindIndex(heap, ids, user);
    if k == -1 then None else Some(ids[k])
  }

  /** With unique usernames, looking up a listed account's username finds
      that account at its position. */
  lemma FindUnique(heap: seq<Account>, ids: seq<ObjId>, k: nat)
    requires IdsIn(heap, ids) && UniqueNames(heap, ids) && k < |ids|
    ensures FindIndex(heap, ids, heap[ids[k]].username) == k
    ensures Find(heap, ids, heap[ids[k]].username) == Some(ids[k])
  {
    var i := FindIndex(heap, ids, heap[ids[k]].username);
    assert 0 <= i <= k;
  }

  /** With unique usernames, a listed object is the one its own username
      finds. */
  lemma ListedFound(heap: seq<Account>, ids: seq<ObjId>, id: ObjId)
    requires IdsIn(heap, ids) && id < |heap|
    ensures id in ids && UniqueNames(heap, ids) ==>
      FindIndex(heap, ids, heap[id].username) >= 0
      && ids[FindIndex(heap, ids, heap[id].username)] == id
      && Find(heap, ids, heap[id].username) == Some(id)
  {
    if id in ids && UniqueNames(heap, ids) {
      var k :| 0 <= k < |ids| && ids[k] == id;
      FindUnique(heap, ids, k);
    }
  }

  /** `splice(start, 1)`: a negative start counts from the end (and is
      clamped at zero); a start past the end removes nothing. */
  function Splice1(s: seq<ObjId>, start: int): (r: seq<ObjId>)
    ensures |r| == if -|s| <= start < |s| then |s| - 1 else if start < -|s| && |s| > 0 then |s| - 1 else |s|
    ensures 0 <= start < |s| ==> r == s[..start] + s[start + 1..]
    ensures -|s| <= start < 0 ==> r == s[..|s| + start] + s[|s| + start + 1..]
    ensures start < -|s| && |s| > 0 ==> r == s[1..]
    ensures start >= |s| ==> r == s
    ensures forall x :: x in r ==> x in s
  {
    var k := if start < 0 then (if |s| + start < 0 then 0 else |s| + start) else start;
    if k < |s| then s[..k] + s[k + 1..] else s
  }

  /** Removing a username that is listed takes out exactly that entry; the
      others keep their relative order. */
  lemma SpliceFound(heap: seq<Account>, ids: seq<ObjId>, user: string)
    requires IdsIn(heap, ids)
    requires FindIndex(heap, ids, user) >= 0
    ensures var k := FindIndex(heap, ids, user);
      Splice1(ids, k) == ids[..k] + ids[k + 1..] && heap[ids[k]].username == user
  {
  }

  /** Removing a username that is not listed takes out the LAST entry:
      `findIndex` answers -1 and `splice(-1, 1)` counts from the end. */
  lemma SpliceMissingDropsLast(heap: seq<Account>, ids: seq<ObjId>, user: string)
    requires IdsIn(heap, ids)
    requires |ids| > 0
    requires forall k :: 0 <= k < |ids| ==> heap[ids[k]].username != user
    ensures Splice1(ids, FindIndex(heap, ids, user)) == ids[..|ids| - 1]
  {
  }

  /** The intended removal: the account with that username goes, the others
      keep their order, and nothing happens when no account has it. Where
      the username is listed it agrees with `splice` at `findIndex`. */
  function Remove(heap: seq<Account>, ids: seq<ObjId>, user: string): (r: seq<ObjId>)
    requires IdsIn(heap, ids)
    ensures IdsIn(heap, r)
    ensures (forall k :: 0 <= k < |ids| ==> heap[ids[k]].username != user) ==> r == ids
    ensures UniqueNames(heap, ids) ==> UniqueNames(heap, r)
    ensures UniqueNames(heap, ids) ==>
      forall id :: id in r <==> id in ids && heap[id].username != user
    ensures FindIndex(heap, ids, user) >= 0 ==>
      var k := FindIndex(heap, ids, user);
      r == ids[..k] + ids[k + 1..] && r == Splice1(ids, k)
  {
    var k := FindIndex(heap, ids, user);
    if k == -1 then ids
    else
      RemoveAtKeepsOthers(heap, ids, k);
      ids[..k] + ids[k + 1..]
  }

  lemma RemoveAtKeepsOthers(heap: seq<Account>, ids: seq<ObjId>, k: nat)
    requires IdsIn(heap, ids)
    requires k < |ids|
    ensures IdsIn(heap, ids[..k] + ids[k + 1..])
    ensures UniqueNames(heap, ids) ==> UniqueNames(heap, ids[..k] + ids[k + 1..])
    ensures UniqueNames(heap, ids) ==> forall id :: id in ids[..k] + ids[k + 1..] <==>
      id in ids && heap[id].username != heap[ids[k]].username
  {
    var r := ids[..k] + ids[k + 1..];
    assert forall j :: 0 <= j < |r| ==> r[j] == if j < k then ids[j] else ids[j + 1];
    if UniqueNames(heap, ids) {
      forall id | id in ids && heap[id].username != heap[ids[k]].username
        ensures id in r
      {
        var j :| 0 <= j < |ids| && ids[j] == id;
        assert j != k;
        if j < k { assert r[j] == id; } else { assert r[j - 1] == id; }
      }
    }
  }

  /** The money held across the given account objects: the sum of their
      balances. */
  function Holdings(heap: seq<Account>): int
  {
    if |heap| == 0 then 0 else Holdings(heap[..|heap| - 1]) + Sum(heap[|heap| - 1].movements)
  }

  /** Replacing one object changes the holdings by the change in its balance. */
  lemma {:induction false} HoldingsUpdate(heap: seq<Account>, id: nat, a: Account)
    requires id < |heap|
    ensures Holdings(heap[id := a]) == Holdings(heap) - Sum(heap[id].movements) + Sum(a.movements)
    decreases |heap|
  {
    var last := |heap| - 1;
    if id == last {
      assert heap[id := a][..last] == heap[..last];
    } else {
      HoldingsUpdate(heap[..last], id, a);
      assert heap[id := a][..last] == heap[..last][id := a];
    }
  }

  /** Two objects trading balance leave the holdings as they were. */
  lemma HoldingsExchange(before: seq<Account>, after: seq<Account>, s: nat, t: nat)
    requires |after| == |before| && s < |before| && t < |before| && s != t
    requires forall id :: 0 <= id < |before| && id != s && id != t ==> after[id] == before[id]
    requires Sum(after[s].movements) + Sum(after[t].movements) == Sum(before[s].movements) + Sum(before[t].movements)
    ensures Holdings(after) == Holdings(before)
  {
    var mid := before[s := after[s]];
    HoldingsUpdate(before, s, after[s]);
    HoldingsUpdate(mid, t, after[t]);
    assert mid[t := after[t]] == after;
  }
}
