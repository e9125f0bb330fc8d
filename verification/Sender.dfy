/**
 * The telemetry sender: it takes batches from the queue one at a time, numbers
 * them, and retries each until the controller accepts it
 * (crates/agent/src/transport.rs). The controller, the queue and the shutdown
 * flag answer as they like; each iteration of either loop consults one answer.
 */
module Sender {
  import opened Base
  import opened Bits

  function Saturate(n: nat): nat {
    if n > U64_MAX then U64_MAX else n
  }

  datatype Flow = Flow(upload: nat, download: nat)

  /** A batch as it is taken from the queue. */
  datatype Batch = Batch(content: nat, flows: seq<Flow>, probes: seq<nat>)

  /** A batch as it is uploaded. */
  datatype Outgoing = Outgoing(batch: Batch, sequence: nat, probes: seq<nat>)

  /** What an upload can be answered with. Accepting comes with the results of the probes it asks for. */
  datatype Reply = Accepted(results: seq<nat>) | Unauthorized | Failed

  /** Everything one iteration may ask its surroundings. */
  datatype Answer = Answer(batch: Option<Batch>, enrolled: Option<nat>, reply: Reply, stop: bool)

  datatype Upload = Upload(out: Outgoing, credential: nat, reply: Reply)

  const RETRY_DELAY: nat := 1
  const MAX_ENROLL_RETRY_DELAY: nat := 30

  datatype State = State(
    sequence: nat,
    credential: Option<nat>,
    probes: seq<nat>,
    delay: nat,
    current: Option<Outgoing>,
    stopped: bool,
    sentBatches: nat,
    sentFlows: nat,
    sentBytes: nat)

  function Start(credential: Option<nat>): State {
    State(0, credential, [], RETRY_DELAY, None, false, 0, 0, 0)
  }

  function FlowBytes(flows: seq<Flow>): nat {
    if |flows| == 0 then 0
    else FlowBytes(flows[..|flows| - 1]) + flows[|flows| - 1].upload + flows[|flows| - 1].download
  }

  /** The saturating fold over the flows is the saturated sum. */
  method ByteCount(flows: seq<Flow>) returns (total: nat)
    ensures total == Saturate(FlowBytes(flows))
  {
    total := 0;
    for i := 0 to |flows|
      invariant total == Saturate(FlowBytes(flows[..i]))
    {
      assert flows[..i + 1][..i] == flows[..i];
      total := Saturate(total + flows[i].upload);
      total := Saturate(total + flows[i].download);
    }
    assert flows[..|flows|] == flows;
  }

  /** An iteration of the outer loop: wait for a batch, number it, and add the pending probe results. */
  function AfterTake(s: State, a: Answer): State {
    match a.batch
    case None => s.(stopped := a.stop)
    case Some(b) =>
      var n := Saturate(s.sequence + 1);
      s.(sequence := n, current := Some(Outgoing(b, n, b.probes + s.probes)), probes := [])
  }

  /** A failed enrolment doubles the next wait, up to thirty seconds; without a token every wait is thirty. */
  function AfterEnrolFailed(s: State, hasToken: bool, a: Answer): State {
    s.(delay := if hasToken then Min(s.delay * 2, MAX_ENROLL_RETRY_DELAY) else s.delay, stopped := a.stop)
  }

  function AfterReply(s: State, a: Answer): State
    requires s.current.Some?
  {
    match a.reply
    case Accepted(results) =>
      var b := s.current.value.batch;
      s.(current := None, probes := s.probes + results, sentBatches := s.sentBatches + 1,
      sentFlows := s.sentFlows + |b.flows|, sentBytes := s.sentBytes + Saturate(FlowBytes(b.flows)))
    case Unauthorized => s.(credential := None, delay := RETRY_DELAY, stopped := a.stop)
    case Failed => s.(stopped := a.stop)
  }

  /** An iteration of the inner loop: enrol if need be, then upload. */
  function AfterTry(s: State, hasToken: bool, a: Answer): State
    requires s.current.Some?
  {
    if s.credential.Some? then AfterReply(s, a)
    else if a.enrolled.None? then AfterEnrolFailed(s, hasToken, a)
    else AfterReply(s.(credential := a.enrolled, delay := RETRY_DELAY), a)
  }

  function After(s: State, hasToken: bool, a: Answer): State {
    if s.stopped then s
    else if s.current.None? then AfterTake(s, a)
    else AfterTry(s, hasToken, a)
  }

  function Run(credential: Option<nat>, hasToken: bool, answers: seq<Answer>): State {
    if |answers| == 0 then Start(credential)
    else After(Run(credential, hasToken, answers[..|answers| - 1]), hasToken, answers[|answers| - 1])
  }

  /**
   * What the surroundings have seen of a run: the batches taken from the queue,
   * every upload, the accepted batches, the probe results each acceptance led
   * to, and the failed enrolments since the last one that succeeded or the last
   * rejected credential.
   */
  datatype Journal = Journal(taken: seq<Batch>, uploads: seq<Upload>, accepted: seq<Outgoing>,
                             results: seq<seq<nat>>, failures: nat)

  const NOTHING_SEEN := Journal([], [], [], [], 0)

  function Uploaded(j: Journal, out: Outgoing, credential: nat, reply: Reply): Journal {
    var j' := j.(uploads := j.uploads + [Upload(out, credential, reply)]);
    match reply
    case Accepted(results) => j'.(accepted := j.accepted + [out], results := j.results + [results])
    case Unauthorized => j'.(failures := 0)
    case Failed => j'
  }

  function Noted(j: Journal, s: State, hasToken: bool, a: Answer): Journal {
    if s.stopped then j
    else if s.current.None? then
      if a.batch.Some? then j.(taken := j.taken + [a.batch.value]) else j
    else if s.credential.Some? then Uploaded(j, s.current.value, s.credential.value, a.reply)
    else if a.enrolled.Some? then Uploaded(j.(failures := 0), s.current.value, a.enrolled.value, a.reply)
    else if hasToken then j.(failures := j.failures + 1)
    else j
  }

  function JournalOf(credential: Option<nat>, hasToken: bool, answers: seq<Answer>): Journal {
    if |answers| == 0 then NOTHING_SEEN
    else
      var before := answers[..|answers| - 1];
      Noted(JournalOf(credential, hasToken, before), Run(credential, hasToken, before), hasToken, answers[|answers| - 1])
  }

  lemma {:induction false} OneMoreAnswer(credential: Option<nat>, hasToken: bool, answers: seq<Answer>, i: nat)
    requires i < |answers|
    ensures var s := Run(credential, hasToken, answers[..i]);
            && Run(credential, hasToken, answers[..i + 1]) == After(s, hasToken, answers[i])
            && JournalOf(credential, hasToken, answers[..i + 1])
            == Noted(JournalOf(credential, hasToken, answers[..i]), s, hasToken, answers[i])
  {
    assert answers[..i + 1][..i] == answers[..i];
  }

  class Worker {
    const hasToken: bool
    ghost const initial: Option<nat>
    var sequence: nat
    var credential: Option<nat>
    var probes: seq<nat>
    var delay: nat
    var current: Option<Outgoing>
    var stopped: bool
    var sentBatches: nat
    var sentFlows: nat
    var sentBytes: nat
    ghost var journal: Journal

    function Current(): State
      reads this
    {
      State(sequence, credential, probes, delay, current, stopped, sentBatches, sentFlows, sentBytes)
    }

    constructor (credential: Option<nat>, hasToken: bool)
      ensures this.hasToken == hasToken && initial == credential
      ensures Current() == Start(credential) && journal == NOTHING_SEEN
    {
      this.hasToken, this.credential, initial := hasToken, credential, credential;
      sequence, probes, delay, current, stopped := 0, [], RETRY_DELAY, None, false;
      sentBatches, sentFlows, sentBytes := 0, 0, 0;
      journal := NOTHING_SEEN;
    }

    /** What an iteration does to the variables and to the surroundings. */
    twostate predicate Iterated(a: Answer)
      reads this
    {
      && Current() == After(old(Current()), hasToken, a)
      && journal == Noted(old(journal), old(Current()), hasToken, a)
    }

    method Take(a: Answer)
      requires !stopped && current.None?
      modifies this
      ensures Iterated(a)
    {
      match a.batch {
        case None =>
          stopped := a.stop;
        case Some(b) =>
          sequence := Saturate(sequence + 1);
          current := Some(Outgoing(b, sequence, b.probes + probes));
          probes := [];
          journal := journal.(taken := journal.taken + [b]);
      }
    }

    method Try(a: Answer)
      requires !stopped && current.Some?
      modifies this
      ensures Iterated(a)
    {
      if credential.None? {
        match a.enrolled {
          case Some(_) =>
            credential := a.enrolled;
            delay := RETRY_DELAY;
            journal := journal.(failures := 0);
          case None =>
            if hasToken {
              delay := Min(delay * 2, MAX_ENROLL_RETRY_DELAY);
              journal := journal.(failures := journal.failures + 1);
            }
            stopped := a.stop;
            return;
        }
      }
      SendBatch(a);
    }

    /** Uploads the batch under the credential and acts on the reply. */
    method SendBatch(a: Answer)
      requires current.Some? && credential.Some?
      modifies this
      ensures Current() == AfterReply(old(Current()), a)
      ensures journal == Uploaded(old(journal), old(current).value, old(credential).value, a.reply)
    {
      journal := Uploaded(journal, current.value, credential.value, a.reply);
      match a.reply {
        case Accepted(results) =>
          var bytes := ByteCount(current.value.batch.flows);
          sentBatches, sentFlows, sentBytes := sentBatches + 1, sentFlows + |current.value.batch.flows|, sentBytes + bytes;
          probes := probes + results;
          current := None;
          return;
        case Unauthorized =>
          credential := None;
          delay := RETRY_DELAY;
        case Failed =>
      }
      stopped := a.stop;
    }

    /** The two nested loops, for as many iterations as there are answers, with all that they take and upload. */
    method Loop(answers: seq<Answer>)
      requires Current() == Start(initial) && journal == NOTHING_SEEN
      modifies this
      ensures Current() == Run(initial, hasToken, answers) && journal == JournalOf(initial, hasToken, answers)
    {
      var i := 0;
      while i < |answers| && !stopped
        invariant i <= |answers| && Current() == Run(initial, hasToken, answers[..i])
        invariant journal == JournalOf(initial, hasToken, answers[..i])
        invariant i < |answers| && !stopped ==> current.None?
        decreases |answers| - i
      {
        OneMoreAnswer(initial, hasToken, answers, i);
        Take(answers[i]);
        i := i + 1;
        while i < |answers| && !stopped && current.Some?
          invariant i <= |answers| && Current() == Run(initial, hasToken, answers[..i])
          invariant journal == JournalOf(initial, hasToken, answers[..i])
          decreases |answers| - i
        {
          OneMoreAnswer(initial, hasToken, answers, i);
          Try(answers[i]);
          i := i + 1;
        }
      }
      if stopped {
        StoppedForGood(initial, hasToken, answers, i);
      }
      assert answers[..|answers|] == answers;
    }
  }

  lemma {:induction false} StoppedForGood(credential: Option<nat>, hasToken: bool, answers: seq<Answer>, i: nat)
    requires i <= |answers| && Run(credential, hasToken, answers[..i]).stopped
    ensures Run(credential, hasToken, answers) == Run(credential, hasToken, answers[..i])
    ensures JournalOf(credential, hasToken, answers) == JournalOf(credential, hasToken, answers[..i])
  {
    if i < |answers| {
      var before := answers[..|answers| - 1];
      assert before[..i] == answers[..i];
      StoppedForGood(credential, hasToken, before, i);
    } else {
      assert answers[..i] == answers;
    }
  }

  /** Batch `k` as it has to look: numbered `k + 1`, with the probe results of the acceptance before it. */
  function Expected(taken: seq<Batch>, results: seq<seq<nat>>, k: nat): Outgoing
    requires k < |taken| && k <= |results|
  {
    Outgoing(taken[k], Saturate(k + 1), taken[k].probes + if k == 0 then [] else results[k - 1])
  }

  function AcceptedIn(uploads: seq<Upload>): (n: nat)
    ensures n <= |uploads|
  {
    if |uploads| == 0 then 0
    else AcceptedIn(uploads[..|uploads| - 1]) + if uploads[|uploads| - 1].reply.Accepted? then 1 else 0
  }

  /** Every upload carries the first batch that was not accepted before it: a retry repeats its batch. */
  predicate UploadsInOrder(uploads: seq<Upload>, taken: seq<Batch>, results: seq<seq<nat>>) {
    |uploads| > 0 ==>
      var before, last := uploads[..|uploads| - 1], uploads[|uploads| - 1];
      var k := AcceptedIn(before);
      && UploadsInOrder(before, taken, results)
      && k < |taken| && k <= |results| && last.out == Expected(taken, results, k)
  }

  predicate AcceptedInOrder(j: Journal) {
    && |j.accepted| == |j.results| <= |j.taken|
    && (forall k :: 0 <= k < |j.accepted| ==> j.accepted[k] == Expected(j.taken, j.results, k))
  }

  function Flows(accepted: seq<Outgoing>): nat {
    if |accepted| == 0 then 0
    else Flows(accepted[..|accepted| - 1]) + |accepted[|accepted| - 1].batch.flows|
  }

  function AllBytes(accepted: seq<Outgoing>): nat {
    if |accepted| == 0 then 0
    else AllBytes(accepted[..|accepted| - 1]) + Saturate(FlowBytes(accepted[|accepted| - 1].batch.flows))
  }

  /** The results that the next batch has to carry. */
  function Pending(results: seq<seq<nat>>): seq<nat> {
    if |results| == 0 then [] else results[|results| - 1]
  }

  /** The loop variables in terms of what was seen. */
  predicate Agrees(s: State, j: Journal) {
    && |j.taken| == |j.results| + (if s.current.Some? then 1 else 0)
    && s.sequence == Saturate(|j.taken|)
    && s.probes == (if s.current.Some? then [] else Pending(j.results))
    && (s.current.Some? ==> s.current.value == Expected(j.taken, j.results, |j.results|))
  }

  predicate Tallied(s: State, j: Journal) {
    && s.sentBatches == |j.accepted| == AcceptedIn(j.uploads)
    && s.sentFlows == Flows(j.accepted)
    && s.sentBytes == AllBytes(j.accepted)
    && s.delay == Min(Pow2(j.failures), MAX_ENROLL_RETRY_DELAY)
  }

  predicate Inv(s: State, j: Journal) {
    AcceptedInOrder(j) && UploadsInOrder(j.uploads, j.taken, j.results) && Agrees(s, j) && Tallied(s, j)
  }

  /** What comes later does not change what was expected of the batches before. */
  lemma {:induction false} UploadsStayInOrder(uploads: seq<Upload>, taken: seq<Batch>, results: seq<seq<nat>>,
                                              taken': seq<Batch>, results': seq<seq<nat>>)
    requires UploadsInOrder(uploads, taken, results) && taken <= taken' && results <= results'
    ensures UploadsInOrder(uploads, taken', results')
  {
    if |uploads| > 0 {
      UploadsStayInOrder(uploads[..|uploads| - 1], taken, results, taken', results');
    }
  }

  lemma TakeKeepsInv(s: State, j: Journal, hasToken: bool, a: Answer)
    requires Inv(s, j) && !s.stopped && s.current.None?
    ensures Inv(After(s, hasToken, a), Noted(j, s, hasToken, a))
  {
    if a.batch.Some? {
      UploadsStayInOrder(j.uploads, j.taken, j.results, j.taken + [a.batch.value], j.results);
    }
  }

  lemma AcceptanceKeepsOrder(j: Journal, out: Outgoing, results: seq<nat>)
    requires AcceptedInOrder(j) && |j.results| < |j.taken| && out == Expected(j.taken, j.results, |j.results|)
    ensures AcceptedInOrder(j.(accepted := j.accepted + [out], results := j.results + [results]))
  {
  }

  lemma {:induction false} UploadKeepsOrder(uploads: seq<Upload>, upload: Upload, taken: seq<Batch>, results: seq<seq<nat>>)
    requires UploadsInOrder(uploads, taken, results)
    requires AcceptedIn(uploads) < |taken| && AcceptedIn(uploads) <= |results|
    requires upload.out == Expected(taken, results, AcceptedIn(uploads))
    ensures UploadsInOrder(uploads + [upload], taken, results)
    ensures AcceptedIn(uploads + [upload]) == AcceptedIn(uploads) + if upload.reply.Accepted? then 1 else 0
  {
    assert (uploads + [upload])[..|uploads|] == uploads;
  }

  lemma UploadKeepsJournal(j: Journal, out: Outgoing, credential: nat, reply: Reply)
    requires AcceptedInOrder(j) && UploadsInOrder(j.uploads, j.taken, j.results)
    requires |j.accepted| == AcceptedIn(j.uploads) < |j.taken|
    requires out == Expected(j.taken, j.results, |j.results|)
    ensures var j' := Uploaded(j, out, credential, reply);
            && AcceptedInOrder(j') && UploadsInOrder(j'.uploads, j'.taken, j'.results)
            && |j'.accepted| == AcceptedIn(j'.uploads)
  {
    var j' := Uploaded(j, out, credential, reply);
    UploadKeepsOrder(j.uploads, Upload(out, credential, reply), j.taken, j.results);
    UploadsStayInOrder(j'.uploads, j.taken, j.results, j'.taken, j'.results);
    if reply.Accepted? {
      AcceptanceKeepsOrder(j, out, reply.results);
    }
  }

  lemma UploadKeepsAgreement(s: State, j: Journal, a: Answer)
    requires Agrees(s, j) && s.current.Some? && s.credential.Some?
    ensures Agrees(AfterReply(s, a), Uploaded(j, s.current.value, s.credential.value, a.reply))
  {
  }

  lemma UploadKeepsTally(s: State, j: Journal, a: Answer)
    requires Tallied(s, j) && s.current.Some? && s.credential.Some?
    ensures Tallied(AfterReply(s, a), Uploaded(j, s.current.value, s.credential.value, a.reply))
  {
    var out := s.current.value;
    var upload := Upload(out, s.credential.value, a.reply);
    assert (j.uploads + [upload])[..|j.uploads|] == j.uploads;
    assert (j.accepted + [out])[..|j.accepted|] == j.accepted;
  }

  lemma UploadKeepsInv(s: State, j: Journal, a: Answer)
    requires Inv(s, j) && s.current.Some? && s.credential.Some?
    ensures Inv(AfterReply(s, a), Uploaded(j, s.current.value, s.credential.value, a.reply))
  {
    UploadKeepsJournal(j, s.current.value, s.credential.value, a.reply);
    UploadKeepsAgreement(s, j, a);
    UploadKeepsTally(s, j, a);
  }

  lemma TryKeepsInv(s: State, j: Journal, hasToken: bool, a: Answer)
    requires Inv(s, j) && !s.stopped && s.current.Some?
    ensures Inv(After(s, hasToken, a), Noted(j, s, hasToken, a))
  {
    if s.credential.Some? {
      UploadKeepsInv(s, j, a);
    } else if a.enrolled.Some? {
      UploadKeepsInv(s.(credential := a.enrolled, delay := RETRY_DELAY), j.(failures := 0), a);
    }
  }

  lemma {:induction false} RunKeepsInv(credential: Option<nat>, hasToken: bool, answers: seq<Answer>)
    ensures Inv(Run(credential, hasToken, answers), JournalOf(credential, hasToken, answers))
  {
    if |answers| > 0 {
      var before := answers[..|answers| - 1];
      RunKeepsInv(credential, hasToken, before);
      var s, j := Run(credential, hasToken, before), JournalOf(credential, hasToken, before);
      if !s.stopped && s.current.None? {
        TakeKeepsInv(s, j, hasToken, answers[|answers| - 1]);
      } else if !s.stopped {
        TryKeepsInv(s, j, hasToken, answers[|answers| - 1]);
      }
    }
  }

  /** Accepted batches are numbered 1, 2, 3, … in the order taken, and each acceptance is counted once. */
  lemma {:induction false} AcceptedAreNumbered(credential: Option<nat>, hasToken: bool, answers: seq<Answer>)
    ensures var s, j := Run(credential, hasToken, answers), JournalOf(credential, hasToken, answers);
            && s.sentBatches == |j.accepted| <= |j.taken| <= |j.accepted| + 1
            && s.sentFlows == Flows(j.accepted) && s.sentBytes == AllBytes(j.accepted)
            && forall k :: 0 <= k < |j.accepted| ==>
                             j.accepted[k].sequence == Saturate(k + 1) && j.accepted[k].batch == j.taken[k]
  {
    RunKeepsInv(credential, hasToken, answers);
  }

  lemma {:induction false} UploadAt(uploads: seq<Upload>, taken: seq<Batch>, results: seq<seq<nat>>, i: nat)
    requires UploadsInOrder(uploads, taken, results) && i < |uploads|
    ensures AcceptedIn(uploads[..i]) < |taken| && AcceptedIn(uploads[..i]) <= |results|
    ensures uploads[i].out == Expected(taken, results, AcceptedIn(uploads[..i]))
  {
    if i < |uploads| - 1 {
      var before := uploads[..|uploads| - 1];
      UploadAt(before, taken, results, i);
      assert before[..i] == uploads[..i];
    }
  }

  /** Every upload, retries included, is of the batch that follows the ones accepted so far, under its one number. */
  lemma {:induction false} RetriesRepeat(credential: Option<nat>, hasToken: bool, answers: seq<Answer>, i: nat)
    requires i < |JournalOf(credential, hasToken, answers).uploads|
    ensures var j := JournalOf(credential, hasToken, answers);
            var k := AcceptedIn(j.uploads[..i]);
            && k < |j.taken| && k <= |j.results|
            && j.uploads[i].out == Expected(j.taken, j.results, k)
  {
    RunKeepsInv(credential, hasToken, answers);
    var j := JournalOf(credential, hasToken, answers);
    UploadAt(j.uploads, j.taken, j.results, i);
  }

  /** The probe results that acceptance `k` led to travel in batch `k + 1`, after the batch's own and with no others. */
  lemma {:induction false} ResultsTravelOnce(credential: Option<nat>, hasToken: bool, answers: seq<Answer>, k: nat)
    requires k < |JournalOf(credential, hasToken, answers).accepted|
    ensures var j := JournalOf(credential, hasToken, answers);
            && |j.results| == |j.accepted| <= |j.taken|
            && j.accepted[k].probes == j.taken[k].probes + (if k == 0 then [] else j.results[k - 1])
  {
    RunKeepsInv(credential, hasToken, answers);
  }

  /** With a token, the waits between failed enrolments double from one second to thirty, and start again from one. */
  lemma {:induction false} EnrolmentBacksOff(credential: Option<nat>, hasToken: bool, answers: seq<Answer>)
    ensures Run(credential, hasToken, answers).delay ==
            Min(Pow2(JournalOf(credential, hasToken, answers).failures), MAX_ENROLL_RETRY_DELAY)
  {
    RunKeepsInv(credential, hasToken, answers);
  }
}
