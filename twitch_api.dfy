/**
 * The Twitch Helix client `TwitchAPI` (app/jellyfin_twitch_api.py): the
 * batched online-status query, the single-user lookups that share one
 * 200/401/other dispatch, and the token refresh that every 401 triggers.
 *
 * The network is an input. `answer(a)(k)` is what the `streams` endpoint
 * answers to the k-th request of the a-th attempt (an attempt being the call
 * itself, then each restart after a 401), and `grant(a)` is what the token
 * endpoint answers to the refresh after the a-th attempt.
 */
module TwitchApi {
  import opened Wrappers

  /** Helix accepts at most 100 `user_login` values per `streams` request. */
  const BatchLimit: nat := 100

  /**
   * A Helix answer: 200 with the relevant field of each record in `data`,
   * 401, or any other status. `Rejected` stands for statuses other than 200
   * and 401; a `Rejected(200)` or `Rejected(401)` matches no real answer and
   * is simply raised like any other status.
   */
  datatype HelixResponse<T> = Ok(data: seq<T>) | Unauthorized | Rejected(status: int)

  /** The token endpoint's answer in `get_oauth_token`: 200 with a token, or any other status. */
  datatype TokenResponse = Granted(token: string) | Refused(status: int)

  /** The exceptions the client raises; `RetriesExhausted` stands for running out of fuel. */
  datatype ApiError = RequestFailed(status: int) | TokenFailed(status: int) | RetriesExhausted

  /** How one attempt at a call ends, before any retry. */
  datatype Attempt<T> = Complete(value: T) | Expired | Raised(status: int)

  // ---------------------------------------------------------------------------
  // Batching: `for i in range(0, len(usernames), 100): batch = usernames[i:i + 100]`

  function Min(a: nat, b: nat): nat {
    if a <= b then a else b
  }

  /** `len(range(0, n, 100))`: the number of requests for `n` names. */
  function BatchCount(n: nat): nat {
    (n + BatchLimit - 1) / BatchLimit
  }

  /** `usernames[100k : 100k + 100]`. */
  function Batch(usernames: seq<string>, k: nat): seq<string>
    requires k < BatchCount(|usernames|)
  {
    usernames[k * BatchLimit .. Min(k * BatchLimit + BatchLimit, |usernames|)]
  }

  /** Concatenation of a sequence of batches. */
  function Concat(batches: seq<seq<string>>): seq<string> {
    if batches == [] then [] else Concat(batches[..|batches| - 1]) + batches[|batches| - 1]
  }

  /** The name lists of the first `k` requests, in the order they are sent. */
  function BatchesUpTo(usernames: seq<string>, k: nat): seq<seq<string>>
    requires k <= BatchCount(|usernames|)
  {
    if k == 0 then [] else BatchesUpTo(usernames, k - 1) + [Batch(usernames, k - 1)]
  }

  /** The name lists of all the requests for `usernames`. */
  function Batches(usernames: seq<string>): seq<seq<string>> {
    BatchesUpTo(usernames, BatchCount(|usernames|))
  }

  /** Request `j` of any run of requests carries `Batch(usernames, j)`. */
  lemma {:induction false} BatchesUpToIndex(usernames: seq<string>, m: nat)
    requires m <= BatchCount(|usernames|)
    ensures |BatchesUpTo(usernames, m)| == m
    ensures forall j :: 0 <= j < m ==> BatchesUpTo(usernames, m)[j] == Batch(usernames, j)
  {
    if m > 0 {
      BatchesUpToIndex(usernames, m - 1);
    }
  }

  /** A shorter run of requests is a prefix of a longer one. */
  lemma BatchesUpToIsPrefix(usernames: seq<string>, k: nat, m: nat)
    requires k <= m <= BatchCount(|usernames|)
    ensures |BatchesUpTo(usernames, m)| == m && BatchesUpTo(usernames, m)[..k] == BatchesUpTo(usernames, k)
  {
    BatchesUpToIndex(usernames, m);
    BatchesUpToIndex(usernames, k);
  }

  /** There are ceil(n / 100) batches, each of 1 to 100 names; all but the last hold exactly 100. */
  lemma BatchSizes(usernames: seq<string>)
    ensures BatchCount(|usernames|) == 0 <==> usernames == []
    ensures |usernames| > 0 ==>
              (BatchCount(|usernames|) - 1) * BatchLimit < |usernames| <= BatchCount(|usernames|) * BatchLimit
    ensures forall k :: 0 <= k < BatchCount(|usernames|) ==> 0 < |Batch(usernames, k)| <= BatchLimit
    ensures forall k :: 0 <= k < BatchCount(|usernames|) - 1 ==> |Batch(usernames, k)| == BatchLimit
  {
  }

  /** The batches are consecutive slices that cover the names in order. */
  lemma {:induction false} BatchesCoverInOrder(usernames: seq<string>)
    ensures Concat(Batches(usernames)) == usernames
  {
    BatchPrefixCovers(usernames, BatchCount(|usernames|));
    BatchSizes(usernames);
  }

  /** The first `k` batches, concatenated, are the names before position `100k`. */
  lemma {:induction false} BatchPrefixCovers(usernames: seq<string>, k: nat)
    requires k <= BatchCount(|usernames|)
    ensures Concat(BatchesUpTo(usernames, k)) == usernames[..Min(k * BatchLimit, |usernames|)]
  {
    if k > 0 {
      BatchPrefixCovers(usernames, k - 1);
      var xs := BatchesUpTo(usernames, k - 1);
      assert (xs + [Batch(usernames, k - 1)])[..|xs|] == xs;
      BatchStep(usernames, k - 1);
      var a := (k - 1) * BatchLimit;
      assert usernames[..a] + usernames[a .. Min(a + BatchLimit, |usernames|)]
             == usernames[..Min(a + BatchLimit, |usernames|)];
    }
  }

  /** 250 names are asked for in three requests of 100, 100 and 50. */
  lemma TwoHundredFiftyNames(usernames: seq<string>)
    requires |usernames| == 250
    ensures BatchCount(|usernames|) == 3
    ensures |Batch(usernames, 0)| == 100 && |Batch(usernames, 1)| == 100 && |Batch(usernames, 2)| == 50
  {
  }

  // ---------------------------------------------------------------------------
  // The online-status result of one attempt

  /** The logins a batch's answer reports live: `data` of a 200, nothing otherwise. */
  function LoginsOf(response: HelixResponse<string>): seq<string> {
    if response.Ok? then response.data else []
  }

  /** The batch holding position `p`, counted by whole batches (equal to `p / 100`, see `BatchOfIsQuotient`). */
  function BatchOf(p: nat): nat {
    if p < BatchLimit then 0 else 1 + BatchOf(p - BatchLimit)
  }

  /** Counting whole batches is integer division by the batch size. */
  lemma {:induction false} BatchOfIsQuotient(p: nat)
    ensures BatchOf(p) == p / BatchLimit
  {
    if p >= BatchLimit {
      BatchOfIsQuotient(p - BatchLimit);
    }
  }

  /**
   * `online_status` once the first `n` names have been visited in order: each
   * visited name maps to whether its batch's answer lists it, a later visit
   * of the same name overwriting an earlier one.
   */
  function Marks(usernames: seq<string>, answer: nat -> HelixResponse<string>, n: nat): map<string, bool>
    requires n <= |usernames|
  {
    if n == 0 then map[]
    else
      var user := usernames[n - 1];
      Marks(usernames, answer, n - 1)[user := user in LoginsOf(answer(BatchOf(n - 1)))]
  }

  /** `i` is the last position at which `usernames[i]` occurs among the first `n`. */
  ghost predicate LastBefore(usernames: seq<string>, i: nat, n: nat)
    requires i < n <= |usernames|
  {
    forall j :: i < j < n ==> usernames[j] != usernames[i]
  }

  /** The visited names are exactly the keys. */
  lemma {:induction false} MarksKeys(usernames: seq<string>, answer: nat -> HelixResponse<string>, n: nat)
    requires n <= |usernames|
    ensures forall x :: x in Marks(usernames, answer, n) <==> x in usernames[..n]
  {
    if n > 0 {
      MarksKeys(usernames, answer, n - 1);
      var m := Marks(usernames, answer, n - 1);
      assert Marks(usernames, answer, n).Keys == m.Keys + {usernames[n - 1]};
      assert usernames[..n] == usernames[..n - 1] + [usernames[n - 1]];
    }
  }

  /** Each visited name maps to whether the answer to the batch of its last visit lists it. */
  lemma {:induction false} MarksValues(usernames: seq<string>, answer: nat -> HelixResponse<string>, n: nat)
    requires n <= |usernames|
    ensures forall i :: 0 <= i < n && LastBefore(usernames, i, n) ==>
              && usernames[i] in Marks(usernames, answer, n)
              && Marks(usernames, answer, n)[usernames[i]] == (usernames[i] in LoginsOf(answer(i / BatchLimit)))
  {
    if n > 0 {
      MarksValues(usernames, answer, n - 1);
      var m := Marks(usernames, answer, n - 1);
      var user := usernames[n - 1];
      BatchOfIsQuotient(n - 1);
      assert Marks(usernames, answer, n) == m[user := user in LoginsOf(answer((n - 1) / BatchLimit))];
      forall i | 0 <= i < n - 1 && LastBefore(usernames, i, n)
        ensures LastBefore(usernames, i, n - 1) && usernames[i] != user
      {
      }
    }
  }

  /** Every answer of the first `count` requests is a 200. */
  predicate AllOk(answer: nat -> HelixResponse<string>, count: nat) {
    forall k :: 0 <= k < count ==> answer(k).Ok?
  }

  /** One more 200 extends a run of 200s. */
  lemma AllOkExtend(answer: nat -> HelixResponse<string>, count: nat)
    requires AllOk(answer, count) && answer(count).Ok?
    ensures AllOk(answer, count + 1)
  {
  }

  /** The first request, from `from` on, whose answer is not a 200. */
  function FirstNotOk(answer: nat -> HelixResponse<string>, count: nat, from: nat): (k: nat)
    requires from <= count && AllOk(answer, from) && !AllOk(answer, count)
    ensures from <= k < count && AllOk(answer, k) && !answer(k).Ok?
    decreases count - from
  {
    if !answer(from).Ok? then from else FirstNotOk(answer, count, from + 1)
  }

  /**
   * What one attempt of `get_online_status` ends in: the filled map if every
   * batch is answered 200; otherwise the first batch that is not decides
   * (401: the attempt expired; anything else: raised, with no partial result).
   */
  function OnlineStatusAttempt(usernames: seq<string>, answer: nat -> HelixResponse<string>): (r: Attempt<map<string, bool>>)
    ensures r.Complete? <==> AllOk(answer, BatchCount(|usernames|))
    ensures r.Complete? ==> forall x :: x in r.value <==> x in usernames
    ensures !r.Complete? ==> exists k :: 0 <= k < BatchCount(|usernames|) && AllOk(answer, k) && !answer(k).Ok? &&
                                         (r.Expired? <==> answer(k).Unauthorized?) && (r.Raised? ==> answer(k) == Rejected(r.status))
  {
    var count := BatchCount(|usernames|);
    if AllOk(answer, count) then
      MarksKeys(usernames, answer, |usernames|);
      Complete(Marks(usernames, answer, |usernames|))
    else
      var k := FirstNotOk(answer, count, 0);
      var response := answer(k);
      if response.Unauthorized? then Expired else Raised(response.status)
  }

  /** Position `k * 100 + j`, for `j < 100`, lies in batch `k`. */
  lemma {:induction false} PositionInBatch(k: nat, j: nat)
    requires j < BatchLimit
    ensures BatchOf(k * BatchLimit + j) == k
  {
    if k > 0 {
      PositionInBatch(k - 1, j);
      assert k * BatchLimit + j - BatchLimit == (k - 1) * BatchLimit + j;
    }
  }

  /** Visiting position `p` of a 200-answered batch `k` records whether that answer lists the name there. */
  lemma MarksStep(usernames: seq<string>, answer: nat -> HelixResponse<string>, k: nat, p: nat, logins: seq<string>)
    requires k * BatchLimit <= p < k * BatchLimit + BatchLimit && p < |usernames| && answer(k) == Ok(logins)
    ensures Marks(usernames, answer, p + 1) == Marks(usernames, answer, p)[usernames[p] := usernames[p] in logins]
  {
    PositionInBatch(k, p - k * BatchLimit);
  }

  /** Batch `k` exists exactly when it starts before the end of the names. */
  lemma BatchExists(n: nat, k: nat)
    ensures k < BatchCount(n) <==> k * BatchLimit < n
  {
  }

  /** Requesting batch `k` extends the requests so far by `Batch(usernames, k)` and advances past it. */
  lemma BatchStep(usernames: seq<string>, k: nat)
    requires k < BatchCount(|usernames|)
    ensures (k + 1) * BatchLimit == k * BatchLimit + BatchLimit
    ensures k * BatchLimit + |Batch(usernames, k)| == Min(k * BatchLimit + BatchLimit, |usernames|)
  {
  }

  /** A batch that follows only 200s and is not answered 200 is the first such batch. */
  lemma FirstNotOkIsFirst(answer: nat -> HelixResponse<string>, count: nat, k: nat)
    requires k < count && AllOk(answer, k) && !answer(k).Ok?
    ensures !AllOk(answer, count) && FirstNotOk(answer, count, 0) == k
  {
  }

  /**
   * The inner loop of one 200-answered batch `k`: every name of the batch, at
   * positions `100k` up to `100k + |batch|` of the names, gets whether the
   * answer lists it (`online_users.get(user, False)`).
   */
  method RecordBatch(usernames: seq<string>, answer: nat -> HelixResponse<string>, k: nat, start: nat,
                     batch: seq<string>, logins: seq<string>, onlineStatus: map<string, bool>)
    returns (updated: map<string, bool>)
    requires k < BatchCount(|usernames|) && start == k * BatchLimit
    requires batch == Batch(usernames, k) && answer(k) == Ok(logins)
    requires onlineStatus == Marks(usernames, answer, start)
    ensures updated == Marks(usernames, answer, start + |batch|)
  {
    var end := start + |batch|;
    updated := onlineStatus;
    var p := start;
    while p < end
      invariant start <= p <= end
      invariant updated == Marks(usernames, answer, p)
    {
      var user := usernames[p];
      MarksStep(usernames, answer, k, p, logins);
      updated := updated[user := user in logins];
      p := p + 1;
    }
  }

  /** When every batch is answered 200, the attempt completes with every name visited. */
  lemma AttemptCompletes(usernames: seq<string>, answer: nat -> HelixResponse<string>)
    requires AllOk(answer, BatchCount(|usernames|))
    ensures OnlineStatusAttempt(usernames, answer) == Complete(Marks(usernames, answer, |usernames|))
  {
  }

  /** What the batch loop knows after requesting the batches in `sent` and visiting the first `i` positions. */
  ghost predicate BatchLoopState(usernames: seq<string>, answer: nat -> HelixResponse<string>, i: nat,
                                 sent: seq<seq<string>>, onlineStatus: map<string, bool>)
  {
    && i == |sent| * BatchLimit
    && |sent| <= BatchCount(|usernames|) && sent == BatchesUpTo(usernames, |sent|)
    && AllOk(answer, |sent|)
    && onlineStatus == Marks(usernames, answer, Min(i, |usernames|))
  }

  /** Requesting the next batch appends it to the requests so far. */
  lemma NextRequest(usernames: seq<string>, answer: nat -> HelixResponse<string>, i: nat,
                    sent: seq<seq<string>>, onlineStatus: map<string, bool>)
    requires i < |usernames| && BatchLoopState(usernames, answer, i, sent, onlineStatus)
    ensures |sent| < BatchCount(|usernames|) && i == |sent| * BatchLimit
    ensures usernames[i .. Min(i + BatchLimit, |usernames|)] == Batch(usernames, |sent|)
    ensures sent + [Batch(usernames, |sent|)] == BatchesUpTo(usernames, |sent| + 1)
    ensures onlineStatus == Marks(usernames, answer, i)
  {
    BatchExists(|usernames|, |sent|);
    BatchStep(usernames, |sent|);
  }

  /** After a 200-answered batch, the map covers the names up to the next batch (or the end). */
  lemma AdvanceMarks(usernames: seq<string>, answer: nat -> HelixResponse<string>, i: nat, k: nat,
                     batch: seq<string>, updated: map<string, bool>)
    requires k < BatchCount(|usernames|) && i == k * BatchLimit
    requires batch == Batch(usernames, k) && updated == Marks(usernames, answer, i + |batch|)
    ensures Min(i + BatchLimit, |usernames|) <= |usernames|
    ensures updated == Marks(usernames, answer, Min(i + BatchLimit, |usernames|))
  {
    BatchStep(usernames, k);
    assert i + |batch| == Min(i + BatchLimit, |usernames|);
  }

  /** A 200 answer to the next batch moves the loop on to the following one. */
  lemma AdvanceState(usernames: seq<string>, answer: nat -> HelixResponse<string>, i: nat,
                     sent: seq<seq<string>>, batch: seq<string>, onlineStatus: map<string, bool>,
                     updated: map<string, bool>)
    requires i < |usernames| && BatchLoopState(usernames, answer, i, sent, onlineStatus)
    requires batch == Batch(usernames, |sent|) && answer(|sent|).Ok?
    requires updated == Marks(usernames, answer, i + |batch|)
    ensures BatchLoopState(usernames, answer, i + BatchLimit, sent + [batch], updated)
  {
    var k := |sent|;
    NextRequest(usernames, answer, i, sent, onlineStatus);
    assert i + BatchLimit == (k + 1) * BatchLimit;
    AllOkExtend(answer, k);
    AdvanceMarks(usernames, answer, i, k, batch, updated);
  }

  /** Any other answer to the next batch ends the attempt there. */
  lemma StopState(usernames: seq<string>, answer: nat -> HelixResponse<string>, i: nat,
                  sent: seq<seq<string>>, onlineStatus: map<string, bool>)
    requires i < |usernames| && BatchLoopState(usernames, answer, i, sent, onlineStatus)
    requires |sent| < BatchCount(|usernames|) && !answer(|sent|).Ok?
    ensures OnlineStatusAttempt(usernames, answer)
              == if answer(|sent|).Unauthorized? then Expired else Raised(answer(|sent|).status)
    ensures FirstNotOk(answer, BatchCount(|usernames|), 0) == |sent|
  {
    FirstNotOkIsFirst(answer, BatchCount(|usernames|), |sent|);
  }

  /**
   * One pass of the batch loop: request the next batch (the names from
   * position `i`), then either fold its 200 answer into the map or end the
   * attempt (`ended`) on a 401 or any other status.
   */
  method RequestBatch(usernames: seq<string>, answer: nat -> HelixResponse<string>, i: nat,
                      sent: seq<seq<string>>, onlineStatus: map<string, bool>)
    returns (sent': seq<seq<string>>, ended: Option<Attempt<map<string, bool>>>, updated: map<string, bool>)
    requires i < |usernames| && BatchLoopState(usernames, answer, i, sent, onlineStatus)
    ensures |sent'| == |sent| + 1 && |sent'| <= BatchCount(|usernames|) && sent' == BatchesUpTo(usernames, |sent'|)
    ensures ended.None? <==> answer(|sent|).Ok?
    ensures ended.None? ==> BatchLoopState(usernames, answer, i + BatchLimit, sent', updated)
    ensures ended.Some? ==>
              && !ended.value.Complete? && ended.value == OnlineStatusAttempt(usernames, answer)
              && |sent'| == FirstNotOk(answer, BatchCount(|usernames|), 0) + 1
  {
    NextRequest(usernames, answer, i, sent, onlineStatus);
    var k := |sent|;
    var batch := usernames[i .. Min(i + BatchLimit, |usernames|)];
    sent' := sent + [batch];
    updated := onlineStatus;
    match answer(k)
    case Unauthorized =>
      StopState(usernames, answer, i, sent, onlineStatus);
      ended := Some(Expired);
    case Rejected(status) =>
      StopState(usernames, answer, i, sent, onlineStatus);
      ended := Some(Raised(status));
    case Ok(logins) =>
      updated := RecordBatch(usernames, answer, k, i, batch, logins, onlineStatus);
      AdvanceState(usernames, answer, i, sent, batch, onlineStatus, updated);
      ended := None;
  }

  /**
   * One attempt of `get_online_status`: the batch loop. `sent` is the batches
   * requested, in order; a batch answered with anything but 200 ends the attempt.
   */
  method QueryOnlineStatus(usernames: seq<string>, answer: nat -> HelixResponse<string>)
    returns (r: Attempt<map<string, bool>>, sent: seq<seq<string>>)
    ensures r == OnlineStatusAttempt(usernames, answer)
    ensures |sent| <= BatchCount(|usernames|) && sent == BatchesUpTo(usernames, |sent|)
    ensures r.Complete? ==> sent == Batches(usernames)
    ensures !r.Complete? ==> |sent| == FirstNotOk(answer, BatchCount(|usernames|), 0) + 1
  {
    var onlineStatus: map<string, bool> := map[];
    var i := 0;
    sent := [];
    while i < |usernames|
      invariant BatchLoopState(usernames, answer, i, sent, onlineStatus)
    {
      var ended;
      sent, ended, onlineStatus := RequestBatch(usernames, answer, i, sent, onlineStatus);
      if ended.Some? {
        return ended.value, sent;
      }
      i := i + BatchLimit;
    }
    BatchExists(|usernames|, |sent|);
    assert Min(i, |usernames|) == |usernames| && |sent| == BatchCount(|usernames|);
    AttemptCompletes(usernames, answer);
    r := Complete(onlineStatus);
  }

  // ---------------------------------------------------------------------------
  // The single-user lookups: `get_stream_title`, `get_stream_start_time`, `get_user_profile_image`

  /** The shared dispatch: 200 gives the first record's field, or `None` when `data` is empty. */
  function LookupAttempt<T>(response: HelixResponse<T>): Attempt<Option<T>> {
    match response
    case Ok(data) => Complete(if data == [] then None else Some(data[0]))
    case Unauthorized => Expired
    case Rejected(status) => Raised(status)
  }

  function LookupAttempts<T>(answer: nat -> HelixResponse<T>): nat -> Attempt<Option<T>> {
    (a: nat) => LookupAttempt(answer(a))
  }

  function OnlineStatusAttempts(usernames: seq<string>, answer: nat -> nat -> HelixResponse<string>)
    : nat -> Attempt<map<string, bool>>
  {
    (a: nat) => OnlineStatusAttempt(usernames, answer(a))
  }

  // ---------------------------------------------------------------------------
  // Retrying after a 401

  /** A call's result, the index of its last attempt, and the last token it was granted (`None`: no refresh). */
  datatype Run<T> = Run(result: Result<T, ApiError>, last: nat, token: Option<string>)

  /**
   * The source's recursion on 401: refresh the token and start the whole call
   * again. `fuel` bounds the number of restarts, which the source leaves unbounded.
   */
  function Retry<T>(attempt: nat -> Attempt<T>, grant: nat -> TokenResponse, a: nat, fuel: nat): (run: Run<T>)
    ensures a <= run.last <= a + fuel
    ensures run.result == Failure(RetriesExhausted) <==> run.last == a + fuel && attempt(run.last).Expired?
    ensures run.result.Failure? && run.result.error.TokenFailed? ==> attempt(run.last).Expired? && run.last < a + fuel
    decreases fuel
  {
    match attempt(a)
    case Complete(v) => Run(Success(v), a, None)
    case Raised(status) => Run(Failure(RequestFailed(status)), a, None)
    case Expired =>
      if fuel == 0 then Run(Failure(RetriesExhausted), a, None)
      else
        match grant(a)
        case Refused(status) => Run(Failure(TokenFailed(status)), a, None)
        case Granted(token) =>
          var next := Retry(attempt, grant, a + 1, fuel - 1);
          Run(next.result, next.last, if next.token.Some? then next.token else Some(token))
  }

  /**
   * A call ends at its last attempt: every earlier attempt expired and was
   * followed by a granted token, the result is that of the last attempt alone
   * (earlier partial results are discarded), and the token in use is the last
   * one granted.
   */
  lemma {:induction false} RetryEndsAtLastAttempt<T>(attempt: nat -> Attempt<T>, grant: nat -> TokenResponse, a: nat, fuel: nat)
    ensures var run := Retry(attempt, grant, a, fuel);
            && a <= run.last <= a + fuel
            && (forall b :: a <= b < run.last ==> attempt(b).Expired? && grant(b).Granted?)
            && (run.last == a <==> run.token == None)
            && (run.last > a ==> run.token == Some(grant(run.last - 1).token))
            && (run.result.Success? <==> attempt(run.last).Complete?)
            && (run.result.Success? ==> run.result.value == attempt(run.last).value)
            && (forall s :: run.result == Failure(RequestFailed(s)) <==> attempt(run.last) == Raised(s))
    decreases fuel
  {
    if attempt(a).Expired? && fuel > 0 && grant(a).Granted? {
      RetryEndsAtLastAttempt(attempt, grant, a + 1, fuel - 1);
    }
  }

  /**
   * A successful `get_online_status` returns exactly the input names as keys,
   * each `true` iff the answer to its batch (the one holding its last
   * occurrence) in the last attempt lists it as a `user_login`.
   */
  lemma OnlineStatusMeaning(usernames: seq<string>, answer: nat -> nat -> HelixResponse<string>,
                            grant: nat -> TokenResponse, a: nat, fuel: nat)
    requires Retry(OnlineStatusAttempts(usernames, answer), grant, a, fuel).result.Success?
    ensures var run := Retry(OnlineStatusAttempts(usernames, answer), grant, a, fuel);
            && AllOk(answer(run.last), BatchCount(|usernames|))
            && (forall x :: x in run.result.value <==> x in usernames)
            && (forall i :: 0 <= i < |usernames| && LastBefore(usernames, i, |usernames|) ==>
                  run.result.value[usernames[i]] == (usernames[i] in answer(run.last)(i / BatchLimit).data))
  {
    var run := Retry(OnlineStatusAttempts(usernames, answer), grant, a, fuel);
    RetryEndsAtLastAttempt(OnlineStatusAttempts(usernames, answer), grant, a, fuel);
    var ans := answer(run.last);
    assert OnlineStatusAttempt(usernames, ans).Complete?;
    assert AllOk(ans, BatchCount(|usernames|));
    MarksKeys(usernames, ans, |usernames|);
    MarksValues(usernames, ans, |usernames|);
    assert usernames[..|usernames|] == usernames;
    BatchSizes(usernames);
    forall i | 0 <= i < |usernames|
      ensures i / BatchLimit < BatchCount(|usernames|)
    {
    }
  }

  /** With distinct names, each name maps to `true` iff its own batch's answer lists it. */
  lemma DistinctNamesStatus(usernames: seq<string>, answer: nat -> nat -> HelixResponse<string>,
                            grant: nat -> TokenResponse, a: nat, fuel: nat)
    requires Retry(OnlineStatusAttempts(usernames, answer), grant, a, fuel).result.Success?
    requires forall i, j :: 0 <= i < j < |usernames| ==> usernames[i] != usernames[j]
    ensures var run := Retry(OnlineStatusAttempts(usernames, answer), grant, a, fuel);
            forall i :: 0 <= i < |usernames| ==>
              && usernames[i] in run.result.value
              && run.result.value[usernames[i]] == (usernames[i] in LoginsOf(answer(run.last)(i / BatchLimit)))
  {
    OnlineStatusMeaning(usernames, answer, grant, a, fuel);
  }

  /** An empty name list sends no request and returns an empty map, without refreshing the token. */
  lemma EmptyNamesNeedNoRequest(answer: nat -> nat -> HelixResponse<string>, grant: nat -> TokenResponse, a: nat, fuel: nat)
    ensures Retry(OnlineStatusAttempts([], answer), grant, a, fuel) == Run(Success(map[]), a, None)
  {
    assert OnlineStatusAttempt([], answer(a)) == Complete(map[]);
  }

  /** A successful lookup returns the first record's field of the last attempt's 200, or `None` if `data` is empty. */
  lemma LookupMeaning<T>(answer: nat -> HelixResponse<T>, grant: nat -> TokenResponse, a: nat, fuel: nat)
    ensures var run := Retry(LookupAttempts(answer), grant, a, fuel);
            && (run.result.Success? <==> answer(run.last).Ok?)
            && (run.result.Success? ==>
                  (run.result.value == None <==> answer(run.last).data == [])
                  && (run.result.value.Some? ==> run.result.value.value == answer(run.last).data[0]))
            && (forall s :: run.result == Failure(RequestFailed(s)) <==> answer(run.last) == Rejected(s))
  {
    RetryEndsAtLastAttempt(LookupAttempts(answer), grant, a, fuel);
  }

  // ---------------------------------------------------------------------------
  // The client object

  /** `TwitchAPI`: the bearer token and the request headers built from it. */
  class TwitchClient {
    const clientId: string
    var accessToken: string
    var headers: map<string, string>

    ghost predicate Valid()
      reads this
    {
      && "Client-ID" in headers && headers["Client-ID"] == clientId
      && "Authorization" in headers && headers["Authorization"] == "Bearer " + accessToken
    }

    /** `__init__`, given the token its `get_oauth_token` call obtained. */
    constructor (clientId: string, token: string)
      ensures Valid() && this.clientId == clientId && accessToken == token
      ensures headers == map["Client-ID" := clientId, "Authorization" := "Bearer " + token]
    {
      this.clientId := clientId;
      accessToken := token;
      headers := map["Client-ID" := clientId, "Authorization" := "Bearer " + token];
    }

    /** The refresh every 401 branch performs: a new token, and the header rebuilt from it. */
    method RefreshToken(response: TokenResponse) returns (error: Option<ApiError>)
      requires Valid()
      modifies this
      ensures Valid()
      ensures response.Granted? ==>
                && error == None && accessToken == response.token
                && headers == old(headers)["Authorization" := "Bearer " + response.token]
      ensures response.Refused? ==>
                && error == Some(TokenFailed(response.status))
                && accessToken == old(accessToken) && headers == old(headers)
    {
      match response
      case Refused(status) =>
        error := Some(TokenFailed(status));
      case Granted(token) =>
        accessToken := token;
        headers := headers["Authorization" := "Bearer " + accessToken];
        error := None;
    }

    /**
     * What follows one attempt, shared by every call: a 200 or another status
     * ends the call; a 401 refreshes the token and asks for a restart
     * (`restart`), unless the refresh fails or no restarts are left.
     */
    method AfterAttempt<T>(attempts: nat -> Attempt<T>, grant: nat -> TokenResponse, a: nat, fuel: nat,
                           attempt: Attempt<T>)
      returns (r: Result<T, ApiError>, restart: bool)
      requires Valid() && attempt == attempts(a)
      modifies this
      ensures Valid()
      ensures var run := Retry(attempts, grant, a, fuel);
              !restart ==> && r == run.result && run.token == None
                           && accessToken == old(accessToken) && headers == old(headers)
      ensures restart ==> && fuel > 0 && grant(a).Granted? && accessToken == grant(a).token
                          && headers == old(headers)["Authorization" := "Bearer " + accessToken]
      ensures restart ==> var run, next := Retry(attempts, grant, a, fuel), Retry(attempts, grant, a + 1, fuel - 1);
                          && run.result == next.result
                          && run.token == (if next.token.Some? then next.token else Some(accessToken))
    {
      restart := false;
      match attempt
      case Complete(v) =>
        r := Success(v);
      case Raised(status) =>
        r := Failure(RequestFailed(status));
      case Expired =>
        if fuel == 0 {
          r := Failure(RetriesExhausted);
        } else {
          var error := RefreshToken(grant(a));
          if error.Some? {
            r := Failure(error.value);
          } else {
            r := Failure(RetriesExhausted);
            restart := true;
          }
        }
    }

    /** `get_online_status`, attempt `a` onwards, with at most `fuel` restarts. */
    method GetOnlineStatus(usernames: seq<string>, answer: nat -> nat -> HelixResponse<string>,
                           grant: nat -> TokenResponse, a: nat, fuel: nat)
      returns (r: Result<map<string, bool>, ApiError>)
      requires Valid()
      modifies this
      ensures Valid()
      ensures var run := Retry(OnlineStatusAttempts(usernames, answer), grant, a, fuel);
              && r == run.result
              && accessToken == (if run.token.Some? then run.token.value else old(accessToken))
              && headers == old(headers)["Authorization" := "Bearer " + accessToken]
      decreases fuel
    {
      assert old(headers)["Authorization" := "Bearer " + accessToken] == old(headers);
      var attempt, _ := QueryOnlineStatus(usernames, answer(a));
      var restart;
      r, restart := AfterAttempt(OnlineStatusAttempts(usernames, answer), grant, a, fuel, attempt);
      if restart {
        r := GetOnlineStatus(usernames, answer, grant, a + 1, fuel - 1);
      }
    }

    /**
     * The shared body of the single-user lookups, attempt `a` onwards, with at
     * most `fuel` restarts: a 200 yields the first record's field, or `None`.
     */
    method Lookup<T>(answer: nat -> HelixResponse<T>, grant: nat -> TokenResponse, a: nat, fuel: nat)
      returns (r: Result<Option<T>, ApiError>)
      requires Valid()
      modifies this
      ensures Valid()
      ensures var run := Retry(LookupAttempts(answer), grant, a, fuel);
              && r == run.result
              && accessToken == (if run.token.Some? then run.token.value else old(accessToken))
              && headers == old(headers)["Authorization" := "Bearer " + accessToken]
      decreases fuel
    {
      assert old(headers)["Authorization" := "Bearer " + accessToken] == old(headers);
      var restart;
      r, restart := AfterAttempt(LookupAttempts(answer), grant, a, fuel, LookupAttempt(answer(a)));
      if restart {
        r := Lookup(answer, grant, a + 1, fuel - 1);
      }
    }
  }
}
