/**
 The command wrapper of a driver: a command is attempted, retried after growing pauses while it
 fails and retries are left, and answered once. What can come of one attempt is the subject of
 module `ReplyChannel`.
 */
module CommandRetry {
  import opened Values
  import opened ReplyChannel

  predicate Failed(reply: Message) {
    || "error" in reply.labels
    || ("status" in reply.labels && reply.labels["status"] != SUCCESS)
  }

  predicate WantsRetry(o: Outcome) {
    o.Reply? && Failed(o.msg)
  }

  /** The message sent back: the call's labels without the retry settings, and the outcome's status. */
  function Answer(labels: map<string, string>, o: Outcome): Message
    requires !o.Silent?
  {
    var l := labels - {"backoff_ms", "retry", "timeout"};
    match o
    case Timeout => Message(l["status" := ERROR]["reason" := "timeout"], Nil)
    case Reply(r) =>
      if "status" in r.labels then
        var l1 := l["status" := r.labels["status"]];
        Message(if r.labels["status"] != SUCCESS
                then l1["reason" := if "reason" in r.labels then r.labels["reason"] else ""] else l1, r.payload)
      else if "error" in r.labels then Message(l["status" := ERROR]["reason" := r.labels["error"]], r.payload)
      else Message(l["status" := SUCCESS], r.payload)
  }

  function Pow2(k: nat): nat {
    if k == 0 then 1 else 2 * Pow2(k - 1)
  }

  function Sum(s: seq<int>): int {
    if s == [] then 0 else Sum(s[..|s| - 1]) + s[|s| - 1]
  }

  function Retries(retry: int): nat {
    if retry > 0 then retry else 0
  }

  /** The last attempt: the first that does not want a retry, or the last allowed. */
  ghost predicate IsLast(outcomes: nat -> Outcome, retry: int, k: nat) {
    && k <= Retries(retry)
    && (forall j :: 0 <= j < k ==> WantsRetry(outcomes(j)))
    && (k < Retries(retry) ==> !WantsRetry(outcomes(k)))
  }

  /** The pauses before each retry. */
  function Pauses(backoff: int, k: nat): (s: seq<int>)
    ensures |s| == k && forall j :: 0 <= j < k ==> s[j] == backoff * Pow2(j)
  {
    if k == 0 then [] else Pauses(backoff, k - 1) + [backoff * Pow2(k - 1)]
  }

  lemma Doubling(b: int, p: int)
    ensures b * (2 * p - 1) == b * (p - 1) + b * p
  {
  }

  /** The total pause before retry `k`. */
  lemma {:induction false} TotalPause(backoff: int, k: nat)
    ensures Sum(Pauses(backoff, k)) == backoff * (Pow2(k) - 1)
    decreases k
  {
    if k == 0 {
    } else {
      TotalPause(backoff, k - 1);
      var s := Pauses(backoff, k);
      assert s[..k - 1] == Pauses(backoff, k - 1);
      Doubling(backoff, Pow2(k - 1));
    }
  }

  /** The last attempt, found one by one. */
  function LastFrom(outcomes: nat -> Outcome, left: nat, k: nat): (last: nat)
    ensures k <= last <= k + left
    decreases left
  {
    if left > 0 && WantsRetry(outcomes(k)) then LastFrom(outcomes, left - 1, k + 1) else k
  }

  lemma {:induction false} LastFromIsLast(outcomes: nat -> Outcome, retry: int, left: nat, k: nat)
    requires k + left == Retries(retry) && forall j :: 0 <= j < k ==> WantsRetry(outcomes(j))
    ensures IsLast(outcomes, retry, LastFrom(outcomes, left, k))
    decreases left
  {
    if left > 0 && WantsRetry(outcomes(k)) {
      LastFromIsLast(outcomes, retry, left - 1, k + 1);
    }
  }

  lemma SameLast(outcomes: nat -> Outcome, retry: int, j: nat, k: nat)
    requires IsLast(outcomes, retry, j) && IsLast(outcomes, retry, k)
    ensures j == k
  {
    var wants := (i: nat) => WantsRetry(outcomes(i));
    assert (j < k ==> wants(j)) && (k < j ==> wants(k));
  }

  /** Whatever comes of the attempts, exactly one of them is the last. */
  lemma OneIsLast(outcomes: nat -> Outcome, retry: int)
    ensures exists k :: IsLast(outcomes, retry, k) && forall j: nat :: IsLast(outcomes, retry, j) ==> j == k
  {
    var k := LastFrom(outcomes, Retries(retry), 0);
    LastFromIsLast(outcomes, retry, Retries(retry), 0);
    forall j: nat | IsLast(outcomes, retry, j)
      ensures j == k
    {
      SameLast(outcomes, retry, j, k);
    }
  }

  /**
   The answer keeps the call's labels but for the retry settings, and is a success exactly when
   the reply did not fail; a reply with both a status and an error goes by its status.
   */
  lemma AnswerMeans(labels: map<string, string>, o: Outcome, k: string)
    requires !o.Silent?
    ensures k in {"backoff_ms", "retry", "timeout"} ==> k !in Answer(labels, o).labels
    ensures k !in {"backoff_ms", "retry", "timeout", "status", "reason"} ==>
              && (k in Answer(labels, o).labels <==> k in labels)
              && (k in labels ==> Answer(labels, o).labels[k] == labels[k])
    ensures Answer(labels, o).Status() == SUCCESS <==>
              o.Reply? && if "status" in o.msg.labels then o.msg.Status() == SUCCESS else !Failed(o.msg)
    ensures o.Reply? && !("status" in o.msg.labels && "error" in o.msg.labels) ==>
              (Answer(labels, o).Status() == SUCCESS <==> !WantsRetry(o))
  {
  }

  /**
   What the answer says: after a timeout, an error with that reason; otherwise the payload of the
   reply and its status, or else whether it has an error. Reasons go along with what is no success.
   */
  lemma AnswerSays(labels: map<string, string>, o: Outcome)
    requires !o.Silent?
    ensures var a := Answer(labels, o);
            && "status" in a.labels
            && (o.Timeout? ==> a.labels["status"] == "error" && a.labels["reason"] == "timeout" && a.payload == Nil)
            && (o.Reply? ==>
                  var l := o.msg.labels;
                  && a.payload == o.msg.payload
                  && a.labels["status"] == (if "status" in l then l["status"]
                                            else if "error" in l then "error" else "success")
                  && (a.labels["status"] != "success" ==>
                        "reason" in a.labels
                        && a.labels["reason"] == (if "status" !in l then l["error"]
                                                  else if "reason" in l then l["reason"] else ""))
                  && (a.labels["status"] == "success" ==>
                        ("reason" in a.labels <==> "reason" in labels)
                        && ("reason" in labels ==> a.labels["reason"] == labels["reason"])))
  {
  }

  /** A panic counts as a failure: it is retried, and in the end answered with its reason. */
  lemma PanicIsFailure(labels: map<string, string>, reason: string)
    ensures var o := Reply(PanicMessage(reason));
            && WantsRetry(o) && !Announces(o.msg)
            && Answer(labels, o).labels["status"] == "error" && Answer(labels, o).labels["reason"] == reason
  {
    var o := Reply(PanicMessage(reason));
    assert "error" in o.msg.labels && "status" !in o.msg.labels;
  }

  /** What may come of the attempts, given what the handler does in each. */
  ghost predicate MayBe(scripts: nat -> Script, outcomes: nat -> Outcome) {
    forall j: nat :: CanEndAs(scripts(j), outcomes(j))
  }

  /** The attempt may fail and be retried. */
  predicate MayFail(c: Script) {
    Counted(c).Some? && Failed(Counted(c).value)
  }

  /** Some attempt that may be reached announces a reply and then sends none. */
  ghost predicate ReplyMissing(scripts: nat -> Script, retry: int) {
    exists j: nat :: j <= Retries(retry) && Lone(scripts(j)) && forall i: nat :: i < j ==> MayFail(scripts(i))
  }

  ghost predicate AlwaysAnswered(scripts: nat -> Script, retry: int) {
    forall outcomes: nat -> Outcome, k: nat ::
      MayBe(scripts, outcomes) && IsLast(outcomes, retry, k) ==> !outcomes(k).Silent?
  }

  /** A call is answered, whatever happens, if and only if no announced reply is missing. */
  lemma AnsweredIffNoneMissing(scripts: nat -> Script, retry: int)
    ensures AlwaysAnswered(scripts, retry) <==> !ReplyMissing(scripts, retry)
  {
    hide Lone, Counted, CanEndAs;
    if ReplyMissing(scripts, retry) {
      var j: nat :| j <= Retries(retry) && Lone(scripts(j)) && forall i: nat :: i < j ==> MayFail(scripts(i));
      var outcomes := Unlucky(scripts, j);
      assert MayBe(scripts, outcomes) && IsLast(outcomes, retry, j) && outcomes(j).Silent?;
    }
    if !AlwaysAnswered(scripts, retry) {
      var outcomes: nat -> Outcome, k: nat :|
        MayBe(scripts, outcomes) && IsLast(outcomes, retry, k) && outcomes(k).Silent?;
      forall i: nat | i <= k
        ensures if i < k then MayFail(scripts(i)) else Lone(scripts(i))
      {
        EndsAsPossible(scripts(i), outcomes(i));
        assert i < k ==> WantsRetry(outcomes(i));
      }
    }
  }

  /** The attempts before `j` fail, and that one goes silent. */
  lemma Unlucky(scripts: nat -> Script, j: nat) returns (outcomes: nat -> Outcome)
    requires Lone(scripts(j)) && forall i: nat :: i < j ==> MayFail(scripts(i))
    ensures MayBe(scripts, outcomes) && outcomes(j).Silent?
    ensures forall i: nat :: i < j ==> WantsRetry(outcomes(i))
  {
    outcomes := (i: nat) =>
      if i < j && Counted(scripts(i)).Some? then Reply(Counted(scripts(i)).value)
      else if i == j then Silent else Timeout;
    forall i: nat
      ensures CanEndAs(scripts(i), outcomes(i))
    {
      EndsAsPossible(scripts(i), outcomes(i));
    }
  }

  class CommandWrapper {
    const labels: map<string, string>
    ghost const scripts: nat -> Script
    const outcomes: nat -> Outcome
    var retry: int
    var backoff: int
    var attempts: nat
    var pauses: seq<int>
    var answers: seq<Message>

    constructor (labels: map<string, string>, ghost scripts: nat -> Script, outcomes: nat -> Outcome,
                 retry: int, backoff: int)
      ensures this.labels == labels && this.scripts == scripts && this.outcomes == outcomes
      ensures this.retry == retry && this.backoff == backoff
      ensures attempts == 0 && pauses == [] && answers == []
    {
      this.labels, this.scripts, this.outcomes := labels, scripts, outcomes;
      this.retry, this.backoff := retry, backoff;
      attempts, pauses, answers := 0, [], [];
    }

    /** One attempt, and those that follow it. */
    method Attempt(ghost retry0: int, ghost backoff0: int)
      requires answers == [] && attempts <= Retries(retry0) && retry == retry0 - attempts
      requires pauses == Pauses(backoff0, attempts) && backoff == backoff0 * Pow2(attempts)
      requires forall j :: 0 <= j < attempts ==> WantsRetry(outcomes(j))
      modifies this
      ensures 0 < attempts && IsLast(outcomes, retry0, attempts - 1)
      ensures answers == if "sessionID" in labels && !outcomes(attempts - 1).Silent?
                         then [Answer(labels, outcomes(attempts - 1))] else []
      ensures pauses == Pauses(backoff0, attempts - 1)
      decreases Retries(retry0) - attempts
    {
      hide Answer, Failed;
      var outcome := outcomes(attempts);
      attempts := attempts + 1;
      if WantsRetry(outcome) && retry > 0 {
        retry := retry - 1;
        pauses := pauses + [backoff];
        backoff := backoff * 2;
        assert backoff == backoff0 * Pow2(attempts);
        Attempt(retry0, backoff0);
      } else if !outcome.Silent? && "sessionID" in labels {
        answers := answers + [Answer(labels, outcome)];
      }
    }

    /**
     A routed command: at most one attempt per retry and one more. There is at most one answer,
     and exactly one if the call has a session and no announced reply is missing.
     */
    method Route() returns (k: nat)
      requires attempts == 0 && pauses == [] && answers == [] && MayBe(scripts, outcomes)
      modifies this
      ensures attempts == k + 1 <= Retries(old(retry)) + 1
      ensures IsLast(outcomes, old(retry), k)
      ensures answers == if "sessionID" in labels && !outcomes(k).Silent?
                         then [Answer(labels, outcomes(k))] else []
      ensures "sessionID" in labels && !ReplyMissing(scripts, old(retry)) ==> |answers| == 1
      ensures Sum(pauses) == old(backoff) * (Pow2(k) - 1)
    {
      hide MayBe, ReplyMissing, Answer;
      Attempt(retry, backoff);
      k := attempts - 1;
      TotalPause(old(backoff), k);
      AnsweredIffNoneMissing(scripts, old(retry));
    }
  }
}
