/** What a task records of Alpaca's answers: the traffic of a `collect` scope and the last
    answer of a `tracking_last_answer` scope. */
module Traffic {
  import opened Basics

  datatype Answer =
    | ApiAnswer(status: nat, id: Option<string>)
    | MintAnswer(id: Option<string>)

  /** The status of the last API answer; a mint answer never counts. */
  ghost function LastApiStatus(answers: seq<Answer>): Option<nat> {
    if answers == [] then None
    else
      var last := answers[|answers| - 1];
      if last.ApiAnswer? then Some(last.status) else LastApiStatus(answers[..|answers| - 1])
  }

  /** The request ids of all answers that carried one, in order. */
  ghost function RequestIds(answers: seq<Answer>): seq<string> {
    if answers == [] then []
    else
      var rest, last := RequestIds(answers[..|answers| - 1]), answers[|answers| - 1];
      if last.id.Some? then rest + [last.id.value] else rest
  }

  /** The ids a cell that held `ids` keeps after `answers`. */
  ghost function Recorded(ids: seq<string>, collecting: bool, answers: seq<Answer>): seq<string> {
    if collecting then ids + RequestIds(answers) else ids
  }

  /** The last status a cell that held `status` keeps after `answers`. */
  ghost function StatusAfter(status: Option<nat>, recording: bool, answers: seq<Answer>): Option<nat> {
    if recording && LastApiStatus(answers).Some? then LastApiStatus(answers) else status
  }

  lemma RecordedTwice(ids: seq<string>, collecting: bool, a: seq<Answer>, b: seq<Answer>)
    ensures Recorded(Recorded(ids, collecting, a), collecting, b) == Recorded(ids, collecting, a + b)
  {
    RequestIdsOfConcat(a, b);
  }

  lemma StatusAfterTwice(status: Option<nat>, recording: bool, a: seq<Answer>, b: seq<Answer>)
    ensures StatusAfter(StatusAfter(status, recording, a), recording, b) == StatusAfter(status, recording, a + b)
  {
    LastApiStatusOfConcat(a, b);
  }

  lemma {:induction false} LastApiStatusOfConcat(a: seq<Answer>, b: seq<Answer>)
    ensures LastApiStatus(a + b) == if LastApiStatus(b).Some? then LastApiStatus(b) else LastApiStatus(a)
  {
    if b == [] {
      assert a + b == a;
    } else {
      assert (a + b)[..|a + b| - 1] == a + b[..|b| - 1];
      LastApiStatusOfConcat(a, b[..|b| - 1]);
    }
  }

  lemma {:induction false} RequestIdsOfConcat(a: seq<Answer>, b: seq<Answer>)
    ensures RequestIds(a + b) == RequestIds(a) + RequestIds(b)
  {
    if b == [] {
      assert a + b == a;
    } else {
      assert (a + b)[..|a + b| - 1] == a + b[..|b| - 1];
      RequestIdsOfConcat(a, b[..|b| - 1]);
    }
  }

  /** The task-local cells. `collecting` and `tracking` say whether a scope is active;
      outside one nothing is recorded. */
  class TaskLocals {
    var collecting: bool
    var requestIds: seq<string>
    var lastStatus: Option<nat>
    var tracking: bool
    var lastAnswer: Option<nat>

    constructor (collecting: bool)
      ensures this.collecting == collecting && requestIds == [] && lastStatus == None
      ensures !tracking && lastAnswer == None
    {
      this.collecting := collecting;
      requestIds, lastStatus := [], None;
      tracking, lastAnswer := false, None;
    }

    method Record(status: nat, id: Option<string>)
      modifies `requestIds, `lastStatus, `lastAnswer
      ensures collecting ==> requestIds == old(requestIds) + RequestIds([ApiAnswer(status, id)])
      ensures !collecting ==> requestIds == old(requestIds)
      ensures lastStatus == if collecting then Some(status) else old(lastStatus)
      ensures lastAnswer == if tracking then Some(status) else old(lastAnswer)
    {
      if collecting { lastStatus := Some(status); }
      if tracking { lastAnswer := Some(status); }
      RecordId(id);
    }

    /** A mint answer leaves its id only: its status is not the operation's answer. */
    method RecordId(id: Option<string>)
      modifies `requestIds
      ensures requestIds == if collecting && id.Some? then old(requestIds) + [id.value] else old(requestIds)
    {
      if collecting && id.Some? { requestIds := requestIds + [id.value]; }
    }

    /** Records the answers of one attempt in order. */
    method RecordAll(answers: seq<Answer>)
      modifies `requestIds, `lastStatus, `lastAnswer
      ensures requestIds == Recorded(old(requestIds), collecting, answers)
      ensures lastStatus == StatusAfter(old(lastStatus), collecting, answers)
      ensures lastAnswer == StatusAfter(old(lastAnswer), tracking, answers)
    {
      for k := 0 to |answers|
        invariant requestIds == Recorded(old(requestIds), collecting, answers[..k])
        invariant lastStatus == StatusAfter(old(lastStatus), collecting, answers[..k])
        invariant lastAnswer == StatusAfter(old(lastAnswer), tracking, answers[..k])
      {
        assert answers[..k + 1][..k] == answers[..k];
        match answers[k] {
          case ApiAnswer(status, id) => Record(status, id);
          case MintAnswer(id) => RecordId(id);
        }
      }
      assert answers[..|answers|] == answers;
    }
  }
}
