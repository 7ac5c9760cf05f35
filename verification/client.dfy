/**
 The client's side of a socket connection: the nonce generator, the selection of the answer
 to a request from the stream of incoming responses, and the requests the public calls send.
 */
module Client {
  import opened Wrappers
  import opened DataObjects

  const LowMask: bv64 := 0xFFFF_FFFF

  /** The values of a Long counter, read as its 64 bits unsigned. */
  type Counter = x: int | 0 <= x < 0x1_0000_0000_0000_0000

  /** `incr++` on a Long: one more, the largest value wrapping round to the smallest. */
  function Inc(x: Counter): (y: Counter)
    ensures x < 0xFFFF_FFFF_FFFF_FFFF ==> y == x + 1
    ensures x == 0xFFFF_FFFF_FFFF_FFFF ==> y == 0
  {
    if x == 0xFFFF_FFFF_FFFF_FFFF then 0 else x + 1
  }

  /** The generator's state: a per-connection base and the Long counter. */
  datatype Connection = Connection(base: bv64, incr: Counter)

  /** A fresh connection: the seed shifted into the high half, the counter at zero. */
  function Open(seed: bv64): (c: Connection)
    ensures c.base & LowMask == 0 && c.incr == 0
  {
    Connection(seed << 32, 0)
  }

  /** The nonce handed out for a counter value: the base or-ed with the counter's 64 bits. */
  function NonceFor(base: bv64, k: Counter): Nonce {
    base | (k as bv64)
  }

  /** `nonce()`: the nonce for the current counter, which then moves on by one. */
  function NextNonce(c: Connection): (r: (Nonce, Connection))
    ensures r.0 == NonceFor(c.base, c.incr)
    ensures r.1.base == c.base && r.1.incr == Inc(c.incr)
  {
    (NonceFor(c.base, c.incr), c.(incr := Inc(c.incr)))
  }

  /** The first `n` nonces a connection hands out. */
  function Nonces(c: Connection, n: nat): (ns: seq<Nonce>)
    ensures |ns| == n
    decreases n
  {
    if n == 0 then [] else [NextNonce(c).0] + Nonces(NextNonce(c).1, n - 1)
  }

  /** The connection after `k` nonces have been handed out. */
  function Skip(c: Connection, k: nat): (d: Connection)
    ensures d.base == c.base
    decreases k
  {
    if k == 0 then c else Skip(NextNonce(c).1, k - 1)
  }

  /** The `k`-th nonce handed out is the one for the counter after `k` calls. */
  lemma {:induction false} NonceAt(c: Connection, n: nat, k: nat)
    requires k < n
    ensures Nonces(c, n)[k] == NextNonce(Skip(c, k)).0
    decreases k
  {
    if k == 0 {
      NoncesHead(c, n);
    } else {
      NonceAt(NextNonce(c).1, n - 1, k - 1);
      NoncesTail(c, n, k);
    }
  }

  lemma NoncesHead(c: Connection, n: nat)
    requires 0 < n
    ensures Nonces(c, n)[0] == NextNonce(c).0
  {
  }

  lemma NoncesTail(c: Connection, n: nat, k: nat)
    requires 0 < k < n
    ensures Nonces(c, n)[k] == Nonces(NextNonce(c).1, n - 1)[k - 1]
  {
  }

  /** Until it wraps, the counter after `k` calls has moved on by exactly `k`. */
  lemma {:induction false} SkipCounter(c: Connection, k: nat)
    requires c.incr + k < 0x1_0000_0000_0000_0000
    ensures Skip(c, k).incr == c.incr + k
    decreases k
  {
    if k > 0 {
      SkipCounter(NextNonce(c).1, k - 1);
    }
  }

  /** With the low half of the base clear, or-ing in a counter below 2^32 keeps the counter in the low half. */
  lemma LowHalf(base: bv64, a: bv64)
    requires base & LowMask == 0 && a <= LowMask
    ensures (base | a) & LowMask == a
  {
  }

  /** Below 2^32 the counter's bit pattern fits the low half and reads back as the counter. */
  lemma SmallCounter(k: Counter)
    requires k < 0x1_0000_0000
    ensures k as bv64 <= LowMask
    ensures (k as bv64) as int == k
  {
    assert k % 0x1_0000_0000_0000_0000 == k;
  }

  /** Different low halves make different nonces on a base whose low half is clear. */
  lemma DistinctLow(base: bv64, a: bv64, b: bv64)
    requires base & LowMask == 0 && a <= LowMask && b <= LowMask && a != b
    ensures base | a != base | b
  {
    LowHalf(base, a);
    LowHalf(base, b);
  }

  /** Counters below 2^32 give different nonces on a base whose low half is clear. */
  lemma NonceForInjective(base: bv64, j: Counter, k: Counter)
    requires base & LowMask == 0 && j < k < 0x1_0000_0000
    ensures NonceFor(base, j) != NonceFor(base, k)
  {
    SmallCounter(j);
    SmallCounter(k);
    DistinctLow(base, j as bv64, k as bv64);
  }

  /** The first 2^32 nonces of a connection are pairwise distinct. */
  lemma NoncesDistinct(seed: bv64, n: nat)
    requires n <= 0x1_0000_0000
    ensures forall j, k :: 0 <= j < k < n ==> Nonces(Open(seed), n)[j] != Nonces(Open(seed), n)[k]
  {
    var c := Open(seed);
    forall j, k | 0 <= j < k < n
      ensures Nonces(c, n)[j] != Nonces(c, n)[k]
    {
      NoncePairDistinct(c, n, j, k);
    }
  }

  lemma NoncePairDistinct(c: Connection, n: nat, j: nat, k: nat)
    requires c.base & LowMask == 0 && c.incr == 0 && j < k < n <= 0x1_0000_0000
    ensures Nonces(c, n)[j] != Nonces(c, n)[k]
  {
    NonceAt(c, n, j);
    NonceAt(c, n, k);
    SkipCounter(c, j);
    SkipCounter(c, k);
    NonceForInjective(c.base, Skip(c, j).incr, Skip(c, k).incr);
  }

  // ---------------------------------------------------------------------------------------
  // Waiting for the answer

  /** Index of the first response satisfying `p`, or the stream's length when none does. */
  function FirstWhere(stream: seq<Response>, p: Response -> bool): (i: nat)
    ensures i <= |stream|
    ensures i < |stream| ==> p(stream[i])
    ensures forall j :: 0 <= j < i ==> !p(stream[j])
  {
    if |stream| == 0 then 0
    else if p(stream[0]) then 0
    else 1 + FirstWhere(stream[1..], p)
  }

  /**
   `sendAndWait<T>`: the first incoming response that carries the request's nonce and is a T;
   none while no such response has arrived (the call is still suspended).
   */
  function SendAndWait(stream: seq<Response>, nonce: Nonce, kind: ResponseKind): (r: Option<Response>)
    ensures r.Some? ==> r.value.nonce == nonce && KindOf(r.value) == kind
    ensures r.Some? <==> exists i :: 0 <= i < |stream| && stream[i].nonce == nonce && KindOf(stream[i]) == kind
  {
    var i := FirstWhere(stream, (r: Response) => r.nonce == nonce && KindOf(r) == kind);
    if i < |stream| then Some(stream[i]) else None
  }

  /**
   `sendAndWaitWithError<T, R>`: the first incoming response with the request's nonce that is
   a T or an R, delivered in the T slot or the R slot by its kind.
   */
  function SendAndWaitWithError(stream: seq<Response>, nonce: Nonce, t: ResponseKind, e: ResponseKind): (r: (Option<Response>, Option<Response>))
    ensures r.0.Some? ==> r.0.value.nonce == nonce && KindOf(r.0.value) == t
    ensures r.1.Some? ==> r.1.value.nonce == nonce && KindOf(r.1.value) == e
    ensures t != e ==> !(r.0.Some? && r.1.Some?)
    ensures r.0.Some? || r.1.Some? <==>
      exists i :: 0 <= i < |stream| && stream[i].nonce == nonce && KindOf(stream[i]) in {t, e}
  {
    var i := FirstWhere(stream, (r: Response) => r.nonce == nonce && KindOf(r) in {t, e});
    if i == |stream| then (None, None)
    else (if KindOf(stream[i]) == t then Some(stream[i]) else None,
          if KindOf(stream[i]) == e then Some(stream[i]) else None)
  }

  /** Responses to other requests, and responses of other kinds, interleaved anywhere before the answer change nothing. */
  lemma {:induction false} OthersIgnored(noise: seq<Response>, answer: Response, rest: seq<Response>, nonce: Nonce, t: ResponseKind, e: ResponseKind)
    requires forall i :: 0 <= i < |noise| ==> noise[i].nonce != nonce || KindOf(noise[i]) !in {t, e}
    requires answer.nonce == nonce && KindOf(answer) in {t, e} && t != e
    ensures var r := SendAndWaitWithError(noise + [answer] + rest, nonce, t, e);
      r == (if KindOf(answer) == t then (Some(answer), None) else (None, Some(answer)))
  {
    var s := noise + [answer] + rest;
    var p := (r: Response) => r.nonce == nonce && KindOf(r) in {t, e};
    assert s[|noise|] == answer;
    assert forall j :: 0 <= j < |noise| ==> s[j] == noise[j];
    FirstWhereSkips(s, p, |noise|);
  }

  lemma {:induction false} FirstWhereSkips(s: seq<Response>, p: Response -> bool, k: nat)
    requires k < |s| && p(s[k]) && forall j :: 0 <= j < k ==> !p(s[j])
    ensures FirstWhere(s, p) == k
    decreases k
  {
    if k > 0 {
      assert !p(s[0]);
      FirstWhereSkips(s[1..], p, k - 1);
    }
  }

  // ---------------------------------------------------------------------------------------
  // The public calls

  datatype Call =
    | DownloadWithData(url: string, args: seq<string>, completionRequests: seq<CompletionRequest> := [])
    | DownloadWithoutData(url: string, args: seq<string>, completionRequests: seq<CompletionRequest> := [])
    | BeginDownload(url: string, args: seq<string>, completionRequests: seq<CompletionRequest> := [])
    | AddProxy(address: string, limit: int, errorLimit: int := 3)
    | RemoveProxy(address: string)
    | ServerInfoCall
    | TaskInfoCall(taskID: TaskId)
    | TaskLogsCall(taskID: TaskId)
    | TaskDownloadCall(taskID: TaskId)

  /** The request a call sends with `nonce`. */
  function RequestFor(call: Call, nonce: Nonce): (req: Request)
    ensures req.nonce == nonce
    ensures req.Download? <==> call.DownloadWithData? || call.DownloadWithoutData? || call.BeginDownload?
    ensures call.DownloadWithData? ==> req.listenFor == LISTEN_WITH_DATA
    ensures call.DownloadWithoutData? ==> req.listenFor == LISTEN_NO_DATA
    ensures call.BeginDownload? ==> req.listenFor == DO_NOT_LISTEN
    ensures req.Download? ==> req.request == DownloadRequest(call.url, call.args, call.completionRequests)
    ensures call.AddProxy? ==> req == AddProxyServer(nonce, DownloadProxy(call.address, call.limit, call.errorLimit))
  {
    match call
    case DownloadWithData(url, args, completions) => Download(nonce, DownloadRequest(url, args, completions), LISTEN_WITH_DATA)
    case DownloadWithoutData(url, args, completions) => Download(nonce, DownloadRequest(url, args, completions), LISTEN_NO_DATA)
    case BeginDownload(url, args, completions) => Download(nonce, DownloadRequest(url, args, completions), DO_NOT_LISTEN)
    case AddProxy(address, limit, errorLimit) => AddProxyServer(nonce, DownloadProxy(address, limit, errorLimit))
    case RemoveProxy(address) => RemoveProxyServer(nonce, address)
    case ServerInfoCall => GetServerInfo(nonce)
    case TaskInfoCall(id) => GetTaskInfo(nonce, id)
    case TaskLogsCall(id) => GetTaskLogs(nonce, id)
    case TaskDownloadCall(id) => GetTaskDownload(nonce, id)
  }

  /** The kinds a call waits for: the answer kind, and the error kind for calls that take one. */
  function Awaits(call: Call): (ResponseKind, Option<ResponseKind>) {
    match call
    case DownloadWithData(_, _, _) => (DownloadSuccessKind, Some(DownloadFailureKind))
    case DownloadWithoutData(_, _, _) => (DownloadSuccessKind, Some(DownloadFailureKind))
    case BeginDownload(_, _, _) => (DownloadingKind, None)
    case AddProxy(_, _, _) => (AddedProxyServerKind, Some(NoProxyListenerKind))
    case RemoveProxy(_) => (RemovedProxyServerKind, Some(NoProxyListenerKind))
    case ServerInfoCall => (ServerInfoKind, None)
    case TaskInfoCall(_) => (TaskInfoKind, Some(NoTaskWithIDKind))
    case TaskLogsCall(_) => (TaskLogsKind, None)
    case TaskDownloadCall(_) => (TaskDownloadKind, Some(NoDownloadForTaskAvailableKind))
  }

  /** A kind the call accepts as its outcome. */
  predicate Accepts(call: Call, kind: ResponseKind) {
    kind == Awaits(call).0 || Awaits(call).1 == Some(kind)
  }

  /** Making a call: a fresh nonce from the connection, and the request carrying it. */
  function Issue(c: Connection, call: Call): (r: (Request, Connection))
    ensures r.0 == RequestFor(call, NextNonce(c).0) && r.1 == NextNonce(c).1
  {
    var (nonce, next) := NextNonce(c);
    (RequestFor(call, nonce), next)
  }

  /** The outcome a call reports once its answer is among the incoming responses. */
  function Outcome(call: Call, nonce: Nonce, stream: seq<Response>): (r: Option<Response>)
    ensures r.Some? ==> r.value.nonce == nonce && Accepts(call, KindOf(r.value))
  {
    match Awaits(call).1
    case None => SendAndWait(stream, nonce, Awaits(call).0)
    case Some(e) =>
      var pair := SendAndWaitWithError(stream, nonce, Awaits(call).0, e);
      if pair.0.Some? then pair.0 else pair.1
  }

  /** `sendAndWait` skips everything before the first response with the nonce and the kind. */
  lemma SendAndWaitSkips(noise: seq<Response>, answer: Response, rest: seq<Response>, nonce: Nonce, kind: ResponseKind)
    requires forall i :: 0 <= i < |noise| ==> noise[i].nonce != nonce || KindOf(noise[i]) != kind
    requires answer.nonce == nonce && KindOf(answer) == kind
    ensures SendAndWait(noise + [answer] + rest, nonce, kind) == Some(answer)
  {
    var s := noise + [answer] + rest;
    var p := (r: Response) => r.nonce == nonce && KindOf(r) == kind;
    FirstWhereSkips(s, p, |noise|);
  }

  /**
   A call reports the first response that carries its nonce and a kind it accepts, whatever
   came before it for other requests or of other kinds, and whatever follows it.
   */
  lemma OutcomeIsFirstAccepted(call: Call, nonce: Nonce, noise: seq<Response>, answer: Response, rest: seq<Response>)
    requires forall i :: 0 <= i < |noise| ==> noise[i].nonce != nonce || !Accepts(call, KindOf(noise[i]))
    requires answer.nonce == nonce && Accepts(call, KindOf(answer))
    ensures Outcome(call, nonce, noise + [answer] + rest) == Some(answer)
  {
    var (t, e) := Awaits(call);
    match e
    case None =>
      SendAndWaitSkips(noise, answer, rest, nonce, t);
    case Some(err) =>
      OthersIgnored(noise, answer, rest, nonce, t, err);
  }

  /** Two calls made one after the other on a connection carry different nonces. */
  lemma IssueFresh(seed: bv64, first: Call, second: Call)
    ensures var (r1, c1) := Issue(Open(seed), first);
      var (r2, _) := Issue(c1, second);
      r1.nonce != r2.nonce
  {
    NoncesDistinct(seed, 2);
    var c := Open(seed);
    assert Nonces(c, 2)[0] == NextNonce(c).0;
    assert Nonces(c, 2)[1] == NextNonce(NextNonce(c).1).0;
  }
}
