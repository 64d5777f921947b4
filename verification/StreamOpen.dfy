/** Opening a data stream, with retries. */
module StreamOpen {
  import opened Prelude
  import opened ControlFrames

  const STREAM_RETRY_LIMIT: nat := 5

  /** What happens to one try: it ends early, or a reply arrives; `cleared` tells whether the read
      timeout could be reset afterwards. */
  datatype Attempt = ConnectFailed | WriteFailed | ReadFailed | Answered(reply: Bytes, cleared: bool)

  /** No error, or why the try failed. */
  function OpenDataStream(profile: StreamProfile, a: Attempt): Option<StreamOpenError> {
    match a
    case ConnectFailed => Some(Retryable)
    case WriteFailed => Some(Retryable)
    case ReadFailed => Some(Retryable)
    case Answered(reply, cleared) =>
      if reply == [] then Some(Retryable)
      else
        match ValidateStreamAck(profile, reply)
        case Some(e) => Some(e)
        case None => if cleared then None else Some(Retryable)
  }

  /** The try is acknowledged: by a frame with code 1 or 2 for the profile, or by a first byte that is the
      code. */
  predicate Acknowledges(profile: StreamProfile, a: Attempt) {
    var code: u8 := if profile.Rx? then 1 else 2;
    && a.Answered? && a.cleared && a.reply != []
    && if IsFrame(a.reply) then a.reply[4..8] == [code, 0, 0, 0] else a.reply[0] == code
  }

  /** The try is rejected for good: code 8, 9 or 14, in a frame or in 36 bytes. */
  predicate Refuses(a: Attempt) {
    && a.Answered?
    && if IsFrame(a.reply) then IsTerminalCode(a.reply[4..8]) else |a.reply| == 36 && IsTerminalCode(a.reply[..4])
  }

  /** What a try comes to, over all replies: anything else is retried. */
  lemma TryMeaning(profile: StreamProfile, a: Attempt)
    ensures OpenDataStream(profile, a).None? <==> Acknowledges(profile, a)
    ensures OpenDataStream(profile, a).Some? && OpenDataStream(profile, a).value.Fatal? <==> Refuses(a)
    ensures OpenDataStream(profile, a) == Some(Retryable) <==> !Acknowledges(profile, a) && !Refuses(a)
  {
    if a.Answered? {
      StreamAckClassification(profile, a.reply);
    }
  }

  datatype OpenResult = Opened | Rejected(control: NativeControlType) | RetryLimit

  /** Whether a try settles the matter, by success or by rejection. */
  predicate Decisive(profile: StreamProfile, a: Attempt) {
    OpenDataStream(profile, a) != Some(Retryable)
  }

  /** How many tries a call may make when it starts counting at `first`. */
  function Budget(first: nat): nat {
    if first <= STREAM_RETRY_LIMIT then STREAM_RETRY_LIMIT + 1 - first else 0
  }

  /** The first decisive try among the allowed ones decides and no try follows it; the limit is
      reported exactly when every allowed try was retryable. */
  ghost predicate OpensAs(profile: StreamProfile, attempts: nat -> Attempt, first: nat, r: OpenResult, tries: nat) {
    && tries <= Budget(first)
    && (forall k :: 0 <= k < tries - 1 ==> !Decisive(profile, attempts(k)))
    && match r
       case Opened => tries > 0 && OpenDataStream(profile, attempts(tries - 1)).None?
       case Rejected(control) => tries > 0 && OpenDataStream(profile, attempts(tries - 1)) == Some(Fatal(control))
       case RetryLimit => tries == Budget(first) && (tries > 0 ==> !Decisive(profile, attempts(tries - 1)))
  }

  lemma NeverEarlier(profile: StreamProfile, attempts: nat -> Attempt, first: nat, r: OpenResult, tries: nat,
                     r': OpenResult, tries': nat)
    requires OpensAs(profile, attempts, first, r, tries) && OpensAs(profile, attempts, first, r', tries')
    ensures tries >= tries'
  {
    if r != RetryLimit {
      assert Decisive(profile, attempts(tries - 1));
    }
  }

  /** The outcome of an opening is determined by the tries. */
  lemma OpensAsIsDeterministic(profile: StreamProfile, attempts: nat -> Attempt, first: nat, r: OpenResult, tries: nat,
                               r': OpenResult, tries': nat)
    requires OpensAs(profile, attempts, first, r, tries) && OpensAs(profile, attempts, first, r', tries')
    ensures r == r' && tries == tries'
  {
    NeverEarlier(profile, attempts, first, r, tries, r', tries');
    NeverEarlier(profile, attempts, first, r', tries', r, tries);
  }

  method OpenDataStreamWithRetries(profile: StreamProfile, attempts: nat -> Attempt, firstAttempt: nat,
                                   delayFirstAttempt: bool)
    returns (r: OpenResult, tries: nat, sleeps: nat)
    ensures OpensAs(profile, attempts, firstAttempt, r, tries)
    ensures sleeps == if delayFirstAttempt || tries == 0 then tries else tries - 1
  {
    var attempt := firstAttempt;
    tries, sleeps := 0, 0;
    while attempt <= STREAM_RETRY_LIMIT
      invariant attempt == firstAttempt + tries && tries <= Budget(firstAttempt)
      invariant forall k :: 0 <= k < tries ==> !Decisive(profile, attempts(k))
      invariant sleeps == if delayFirstAttempt || tries == 0 then tries else tries - 1
      decreases STREAM_RETRY_LIMIT + 1 - attempt
    {
      if delayFirstAttempt || attempt > firstAttempt {
        sleeps := sleeps + 1;
      }
      var failure := OpenDataStream(profile, attempts(tries));
      tries := tries + 1;
      match failure {
        case None =>
          return Opened, tries, sleeps;
        case Some(Fatal(control)) =>
          return Rejected(control), tries, sleeps;
        case Some(Retryable) =>
          attempt := attempt + 1;
      }
    }
    r := RetryLimit;
  }

  method OpenStream(profile: StreamProfile, attempts: nat -> Attempt) returns (r: OpenResult, tries: nat)
    ensures OpensAs(profile, attempts, 0, r, tries)
    ensures tries <= 6 && (r == RetryLimit ==> tries == 6)
  {
    var sleeps;
    r, tries, sleeps := OpenDataStreamWithRetries(profile, attempts, 0, false);
  }

  method ReopenStream(profile: StreamProfile, attempts: nat -> Attempt, retries: nat)
    returns (r: OpenResult, tries: nat)
    ensures OpensAs(profile, attempts, retries, r, tries)
    ensures retries == 1 ==> tries <= 5 && (r == RetryLimit ==> tries == 5)
  {
    var sleeps;
    r, tries, sleeps := OpenDataStreamWithRetries(profile, attempts, retries, true);
  }

  /** The try at `k` settles the matter, and none before it did. */
  ghost predicate SettlesAt(profile: StreamProfile, attempts: nat -> Attempt, k: nat) {
    && (Acknowledges(profile, attempts(k)) || Refuses(attempts(k)))
    && forall j :: 0 <= j < k ==> !Acknowledges(profile, attempts(j)) && !Refuses(attempts(j))
  }

  /** An opening that may make `n` tries: six at first, five after a stream was lost. It is opened or rejected
      by the first try that settles the matter, and reaches the limit only when all `n` tries
      failed without settling it. */
  ghost predicate Settled(profile: StreamProfile, attempts: nat -> Attempt, n: nat, r: OpenResult) {
    match r
    case Opened => exists k :: 0 <= k < n && SettlesAt(profile, attempts, k) && Acknowledges(profile, attempts(k))
    case Rejected(_) => exists k :: 0 <= k < n && SettlesAt(profile, attempts, k) && Refuses(attempts(k))
    case RetryLimit => forall k :: 0 <= k < n ==> !Acknowledges(profile, attempts(k)) && !Refuses(attempts(k))
  }

  lemma OpeningsAreSettled(profile: StreamProfile, attempts: nat -> Attempt, first: nat, r: OpenResult, tries: nat)
    requires OpensAs(profile, attempts, first, r, tries)
    ensures first == 0 ==> Settled(profile, attempts, 6, r)
    ensures first == 1 ==> Settled(profile, attempts, 5, r)
  {
    forall k: nat
      ensures Decisive(profile, attempts(k)) <==> Acknowledges(profile, attempts(k)) || Refuses(attempts(k))
    {
      TryMeaning(profile, attempts(k));
    }
    if r != RetryLimit {
      TryMeaning(profile, attempts(tries - 1));
      assert SettlesAt(profile, attempts, tries - 1);
    }
  }
}
