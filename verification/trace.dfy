/**
 A run of the server: because the store's mutex makes each handler one
 atomic step, any execution is some sequence of requests applied one after
 another. `Run` folds `Handle` over such a sequence; `LastWrite` is an
 independent description of what the store holds afterwards.
 */
module Trace {
  import opened Http
  import opened KeyValueStore

  /** The store after the requests, and one response per request, in order. */
  function Run(s: Store, reqs: seq<Request>): (out: (Store, seq<Response>))
    ensures |out.1| == |reqs|
    decreases |reqs|
  {
    if |reqs| == 0 then (s, [])
    else
      var before := Run(s, reqs[..|reqs| - 1]);
      var step := Handle(before.0, reqs[|reqs| - 1]);
      (step.0, before.1 + [step.1])
  }

  /** The value of the last successful `/set` of `k` in `reqs`, if any. */
  function LastWrite(reqs: seq<Request>, k: Key): Option<Value>
    decreases |reqs|
  {
    if |reqs| == 0 then None
    else if WritesKey(reqs[|reqs| - 1], k) then Some(reqs[|reqs| - 1].setBody.req.value)
    else LastWrite(reqs[..|reqs| - 1], k)
  }

  /** What a lookup of `k` sees after `reqs`: the last value written there,
      or else whatever the store held at the start. */
  function Visible(s: Store, reqs: seq<Request>, k: Key): Option<Value> {
    if LastWrite(reqs, k).Some? then LastWrite(reqs, k) else Lookup(s, k)
  }

  /** The store after a run agrees, key by key, with the last-writer description. */
  lemma {:induction false} RunStoreIsLastWrite(s: Store, reqs: seq<Request>, k: Key)
    ensures Lookup(Run(s, reqs).0, k) == Visible(s, reqs, k)
    decreases |reqs|
  {
    if |reqs| > 0 {
      var prefix := reqs[..|reqs| - 1];
      RunStoreIsLastWrite(s, prefix, k);
    }
  }

  /** The i-th response is the answer of the i-th request to the store that
      the first i requests left behind. */
  lemma {:induction false} RunResponse(s: Store, reqs: seq<Request>, i: nat)
    requires i < |reqs|
    ensures Run(s, reqs).1[i] == Handle(Run(s, reqs[..i]).0, reqs[i]).1
    decreases |reqs|
  {
    var n := |reqs| - 1;
    if i < n {
      var prefix := reqs[..n];
      RunResponse(s, prefix, i);
      assert prefix[..i] == reqs[..i];
    } else {
      assert reqs[..n] == reqs[..i];
    }
  }

  /** A `/get` of `k` inside a run answers with what is visible at that point:
      the value last written, or else the initial value, or else 404. */
  lemma GetSeesVisible(s: Store, reqs: seq<Request>, i: nat, k: Key)
    requires i < |reqs| && reqs[i] == GetCall(Decoded(GetRequest(k)))
    ensures Run(s, reqs).1[i] == (match Visible(s, reqs[..i], k)
                                  case Some(v) => OkValue(v)
                                  case None => NotFound(KeyNotFound))
  {
    RunResponse(s, reqs, i);
    RunStoreIsLastWrite(s, reqs[..i], k);
  }

  /** The last write of `k` before position `j` is the one at `i` when no
      write of `k` falls strictly between them. */
  lemma {:induction false} LastWriteAfter(reqs: seq<Request>, i: nat, j: nat, k: Key)
    requires i < j <= |reqs|
    requires WritesKey(reqs[i], k)
    requires forall m :: i < m < j ==> !WritesKey(reqs[m], k)
    ensures LastWrite(reqs[..j], k) == Some(reqs[i].setBody.req.value)
    decreases j
  {
    var prefix := reqs[..j];
    assert prefix[|prefix| - 1] == reqs[j - 1];
    if j - 1 > i {
      assert prefix[..|prefix| - 1] == reqs[..j - 1];
      LastWriteAfter(reqs, i, j - 1, k);
    }
  }

  /** With no write of `k` before position `j`, there is no last write of `k`. */
  lemma {:induction false} LastWriteNone(reqs: seq<Request>, j: nat, k: Key)
    requires j <= |reqs|
    requires forall m :: 0 <= m < j ==> !WritesKey(reqs[m], k)
    ensures LastWrite(reqs[..j], k) == None
    decreases j
  {
    if j > 0 {
      var prefix := reqs[..j];
      assert prefix[|prefix| - 1] == reqs[j - 1];
      assert prefix[..|prefix| - 1] == reqs[..j - 1];
      LastWriteNone(reqs, j - 1, k);
    }
  }

  /** Round trip: a `/get` of `k` returns the value of the last successful
      `/set` of `k` before it. */
  lemma SetGetRoundTrip(s: Store, reqs: seq<Request>, i: nat, j: nat, k: Key, v: Value)
    requires i < j < |reqs|
    requires reqs[i] == SetCall(Decoded(SetRequest(k, v)))
    requires reqs[j] == GetCall(Decoded(GetRequest(k)))
    requires forall m :: i < m < j ==> !WritesKey(reqs[m], k)
    ensures Run(s, reqs).1[j] == OkValue(v)
  {
    LastWriteAfter(reqs, i, j, k);
    GetSeesVisible(s, reqs, j, k);
  }

  /** Absence: a `/get` of a key the store did not start with and no earlier
      request wrote is answered 404 with the fixed message. */
  lemma GetNeverWritten(s: Store, reqs: seq<Request>, j: nat, k: Key)
    requires j < |reqs|
    requires k !in s
    requires reqs[j] == GetCall(Decoded(GetRequest(k)))
    requires forall m :: 0 <= m < j ==> !WritesKey(reqs[m], k)
    ensures Run(s, reqs).1[j] == NotFound(KeyNotFound)
    ensures Status(Run(s, reqs).1[j]) == StatusNotFound
  {
    LastWriteNone(reqs, j, k);
    GetSeesVisible(s, reqs, j, k);
  }

  /** Frame: `/get` requests and `/set` requests that fail to decode never
      change the store, however many of them run. */
  lemma {:induction false} ReadOnlyRunKeepsStore(s: Store, reqs: seq<Request>)
    requires forall m :: 0 <= m < |reqs| ==> !Writes(reqs[m])
    ensures Run(s, reqs).0 == s
    decreases |reqs|
  {
    if |reqs| > 0 {
      ReadOnlyRunKeepsStore(s, reqs[..|reqs| - 1]);
    }
  }

  /** The `/set` requests that carry the given decoded bodies, in order. */
  function SetCalls(ws: seq<SetRequest>): (reqs: seq<Request>)
    ensures |reqs| == |ws|
    ensures forall m :: 0 <= m < |ws| ==> reqs[m] == SetCall(Decoded(ws[m]))
  {
    seq(|ws|, m requires 0 <= m < |ws| => SetCall(Decoded(ws[m])))
  }

  /** Writes to distinct keys, in whatever order the lock admits them, each
      leave their own value behind. */
  lemma DistinctWritesAllVisible(s: Store, ws: seq<SetRequest>)
    requires forall m, n :: 0 <= m < n < |ws| ==> ws[m].key != ws[n].key
    ensures forall m :: 0 <= m < |ws| ==> Lookup(Run(s, SetCalls(ws)).0, ws[m].key) == Some(ws[m].value)
  {
    var reqs := SetCalls(ws);
    forall m | 0 <= m < |ws|
      ensures Lookup(Run(s, reqs).0, ws[m].key) == Some(ws[m].value)
    {
      var k := ws[m].key;
      LastWriteAfter(reqs, m, |reqs|, k);
      assert reqs[..|reqs|] == reqs;
      RunStoreIsLastWrite(s, reqs, k);
    }
  }
}
