/**
  The analysis-request lifecycle of the application shell (App.tsx) as pure transitions on a
  `Session`, the value of all the shell's state that these handlers read or write. Each
  handler runs to completion as one step. The interpreter's outcome, generated ids and clock
  readings are parameters. The class `AppShell.App` implements these transitions in place.
 */
module Lifecycle {
  import opened Wrappers
  import opened Text
  import opened Types
  import Gemini

  /** How many analyses the persisted and the loaded history keep. */
  const MAX_HISTORY_ITEMS: nat := 100

  const OFFLINE_QUEUED_MESSAGE := "Offline - Added to queue." + " Will analyze when online."
  const ANALYSIS_ERROR_FALLBACK := "Could not analyze message." + " Please try again."
  const LIBRARY_ADDED_MESSAGE := "Resource added to library"
  const LIBRARY_REMOVED_MESSAGE := "Resource removed"
  /** The accordion section open when the shell starts. */
  const INITIAL_SECTION := "Expected"

  datatype ToastKind = SuccessToast | ErrorToast | InfoToast | OfflineToast | OnlineToast

  datatype Toast = Toast(message: string, kind: ToastKind)

  /**
    The shell's state, field for field, and `sent`: the analysis requests handed to the
    interpreter so far, oldest first. `sent` is the outgoing side of the network; the shell
    itself does not keep it.
   */
  datatype Session = Session(
    screen: Screen,
    selectedMode: Option<Mode>,
    inputText: string,
    selectedImage: Option<Media>,
    selectedAudio: Option<Media>,
    isAnalyzing: bool,
    currentAnalysis: Option<AnalysisResult>,
    history: seq<AnalysisResult>,
    expandedSections: seq<string>,
    isOnline: bool,
    queuedAnalyses: seq<QueuedAnalysis>,
    toast: Option<Toast>,
    customLibraryItems: seq<CustomLibraryItem>,
    settings: UserSettings,
    sent: seq<Gemini.Request>)

  const DEFAULT_SETTINGS := UserSettings(TextMedium, Lexend, "", Standard, false, 1.0, Work, false, Free, 0, None)

  /** The state on start-up; only connectivity comes from outside. */
  function Initial(isOnline: bool): (s: Session)
    ensures s.screen == Welcome && s.isOnline == isOnline && !s.isAnalyzing
    ensures s.history == [] && s.queuedAnalyses == [] && s.customLibraryItems == []
    ensures s.settings.tier == Free && s.settings.analysesCount == 0
    ensures s.expandedSections == [INITIAL_SECTION] && s.sent == []
  {
    Session(Welcome, None, "", None, None, false, None, [], [INITIAL_SECTION], isOnline, [], None, [],
            DEFAULT_SETTINGS, [])
  }

  // ---------------------------------------------------------------- submitting an analysis

  /** A free user who has used up the quota is sent to the paywall. */
  predicate QuotaExhausted(settings: UserSettings) {
    settings.tier == Free && settings.analysesCount >= FREE_TIER_LIMIT
  }

  /** Something to analyse: text that is not only white space, an image or a recording. */
  predicate HasInput(s: Session) {
    Trim(s.inputText) != [] || s.selectedImage.Some? || s.selectedAudio.Some?
  }

  /** A submit gets past all three guards. */
  predicate Ready(s: Session) {
    !QuotaExhausted(s.settings) && HasInput(s) && s.selectedMode.Some?
  }

  /** The request recorded while offline: the raw text, the mode, the detail setting and the attachments. */
  function QueuedRequest(s: Session, id: string): (q: QueuedAnalysis)
    requires s.selectedMode.Some?
    ensures q.id == id && q.message == s.inputText && q.mode == s.selectedMode.value
    ensures q.detailLevel == s.settings.analysisDetail
    ensures q.image == s.selectedImage && q.audio == s.selectedAudio
  {
    QueuedAnalysis(id, s.inputText, s.selectedMode.value, s.settings.analysisDetail, s.selectedImage, s.selectedAudio)
  }

  /** The `analyzeMessage` call for a queued request: its own text, mode, detail level and attachments. */
  function RequestOf(q: QueuedAnalysis): Gemini.Request {
    Gemini.Request(q.message, q.mode, q.detailLevel, q.image, q.audio)
  }

  /** The `analyzeMessage` call of a direct submit: the composer's fields and the current detail setting. */
  function SubmitRequest(s: Session): Gemini.Request
    requires s.selectedMode.Some?
  {
    Gemini.Request(s.inputText, s.selectedMode.value, s.settings.analysisDetail, s.selectedImage, s.selectedAudio)
  }

  /** A request queued while offline is later sent exactly as a direct submit would have sent it. */
  lemma QueuedRequestSendsSubmitRequest(s: Session, id: string)
    requires s.selectedMode.Some?
    ensures RequestOf(QueuedRequest(s, id)) == SubmitRequest(s)
  {
  }

  /** The text of the error toast: the error's message, or the fallback when it has none. */
  function ErrorToastMessage(errorMessage: string): (m: string)
    ensures m != []
    ensures errorMessage != [] ==> m == errorMessage
    ensures errorMessage == [] ==> m == ANALYSIS_ERROR_FALLBACK
  {
    if errorMessage != [] then errorMessage else ANALYSIS_ERROR_FALLBACK
  }

  /** The session with the composer emptied. */
  function ClearInput(s: Session): (t: Session)
    ensures t.inputText == [] && t.selectedImage.None? && t.selectedAudio.None?
  {
    s.(inputText := [], selectedImage := None, selectedAudio := None)
  }

  /** One successful analysis: newest first in the history, and one more use of the quota. */
  function Record(s: Session, result: AnalysisResult): (t: Session)
    ensures t.history == [result] + s.history
    ensures t.settings == s.settings.(analysesCount := s.settings.analysesCount + 1)
  {
    s.(history := [result] + s.history, settings := s.settings.(analysesCount := s.settings.analysesCount + 1))
  }

  /**
    `handleStartAnalysis`. The quota gate runs first and only shows the paywall; without input
    or without a mode nothing happens; offline, the request joins the end of the queue; online,
    a success is recorded and shown, and a failure only reports the error on the input screen,
    keeping the input for a retry.
   */
  function StartAnalysis(s: Session, reply: Gemini.ServiceReply, queuedId: string, resultId: string, now: int)
    : (t: Session)
    ensures QuotaExhausted(s.settings) ==> t == s.(screen := Paywall)
    ensures !QuotaExhausted(s.settings) && !Ready(s) ==> t == s
  {
    if QuotaExhausted(s.settings) then s.(screen := Paywall)
    else if !HasInput(s) then s
    else if s.selectedMode.None? then s
    else if !s.isOnline then Enqueue(s, queuedId)
    else Submit(s, reply, resultId, now)
  }

  /** The five outcomes of a submit, case by case. */
  lemma StartAnalysisOutcomes(s: Session, reply: Gemini.ServiceReply, queuedId: string, resultId: string, now: int)
    ensures var t := StartAnalysis(s, reply, queuedId, resultId, now);
      && (QuotaExhausted(s.settings) ==> t == s.(screen := Paywall))
      && (!QuotaExhausted(s.settings) && !Ready(s) ==> t == s)
      && (Ready(s) && !s.isOnline ==>
            t == ClearInput(s).(queuedAnalyses := s.queuedAnalyses + [QueuedRequest(s, queuedId)],
                                toast := Some(Toast(OFFLINE_QUEUED_MESSAGE, OfflineToast)), screen := Home))
      && (Ready(s) && s.isOnline && reply.ServiceAnswered? ==>
            var result := Gemini.Analyze(SubmitRequest(s), reply, resultId, now).value;
            t == ClearInput(Record(s, result)).(currentAnalysis := Some(result), screen := Results, isAnalyzing := false,
                                                sent := s.sent + [SubmitRequest(s)]))
      && (Ready(s) && s.isOnline && reply.ServiceFailed? ==>
            t == s.(toast := Some(Toast(ErrorToastMessage(reply.message), ErrorToast)), screen := InputScreen,
                    isAnalyzing := false, sent := s.sent + [SubmitRequest(s)]))
  {
    if !QuotaExhausted(s.settings) && Ready(s) {
      var mode := s.selectedMode.value;
      if !s.isOnline {
        assert StartAnalysis(s, reply, queuedId, resultId, now) == Enqueue(s, queuedId);
      } else {
        var req := SubmitRequest(s);
        var s1 := s.(sent := s.sent + [req]);
        var outcome := Gemini.Analyze(req, reply, resultId, now);
        assert StartAnalysis(s, reply, queuedId, resultId, now) == Submit(s, reply, resultId, now);
        if reply.ServiceAnswered? {
          assert Submit(s, reply, resultId, now) == Succeeded(s1, outcome.value);
        } else {
          assert Submit(s, reply, resultId, now) == Failed(s1, reply.message);
        }
      }
    }
  }

  /** The offline branch: the request joins the end of the queue and the composer is emptied; nothing is sent. */
  function Enqueue(s: Session, queuedId: string): (t: Session)
    requires s.selectedMode.Some?
    ensures t.queuedAnalyses == s.queuedAnalyses + [QueuedRequest(s, queuedId)]
    ensures t.inputText == [] && t.selectedImage.None? && t.selectedAudio.None? && t.screen == Home
    ensures t.sent == s.sent && t.history == s.history && t.settings == s.settings
  {
    ClearInput(s).(queuedAnalyses := s.queuedAnalyses + [QueuedRequest(s, queuedId)],
                   toast := Some(Toast(OFFLINE_QUEUED_MESSAGE, OfflineToast)), screen := Home)
  }

  /**
    The online branch: the composer's text, mode and attachments are sent with the current
    detail setting, and the outcome of that call is recorded or reported.
   */
  function Submit(s: Session, reply: Gemini.ServiceReply, resultId: string, now: int): (t: Session)
    requires s.selectedMode.Some?
    ensures t.sent == s.sent + [Gemini.Request(s.inputText, s.selectedMode.value, s.settings.analysisDetail,
                                               s.selectedImage, s.selectedAudio)]
    ensures t.queuedAnalyses == s.queuedAnalyses
    ensures |t.history| == |s.history| + (if reply.ServiceAnswered? then 1 else 0)
  {
    var req := SubmitRequest(s);
    var outcome := Gemini.Analyze(req, reply, resultId, now);
    var s1 := s.(sent := s.sent + [req]);
    if outcome.Success? then Succeeded(s1, outcome.value) else Failed(s1, outcome.error)
  }

  /** The loading screen and the busy flag shown while the analysis runs never survive it. */
  lemma SubmitOverwritesProgress(s: Session, reply: Gemini.ServiceReply, resultId: string, now: int)
    requires s.selectedMode.Some?
    ensures Submit(s.(screen := Loading, isAnalyzing := true), reply, resultId, now) == Submit(s, reply, resultId, now)
  {
  }

  /** A direct analysis that succeeded: recorded, shown, and the composer emptied. */
  function Succeeded(s: Session, result: AnalysisResult): (t: Session)
    ensures t.history == [result] + s.history && t.currentAnalysis == Some(result) && t.screen == Results
    ensures t.settings.analysesCount == s.settings.analysesCount + 1 && !t.isAnalyzing
    ensures t.inputText == [] && t.selectedImage.None? && t.selectedAudio.None?
    ensures t.queuedAnalyses == s.queuedAnalyses && t.sent == s.sent
  {
    ClearInput(Record(s, result)).(currentAnalysis := Some(result), screen := Results, isAnalyzing := false)
  }

  /** A direct analysis that failed: only the error is reported, on the input screen. */
  function Failed(s: Session, message: string): (t: Session)
    ensures t.toast == Some(Toast(ErrorToastMessage(message), ErrorToast)) && t.screen == InputScreen && !t.isAnalyzing
    ensures t.inputText == s.inputText && t.selectedImage == s.selectedImage && t.selectedAudio == s.selectedAudio
    ensures t.history == s.history && t.settings == s.settings && t.currentAnalysis == s.currentAnalysis
    ensures t.queuedAnalyses == s.queuedAnalyses && t.sent == s.sent
  {
    s.(toast := Some(Toast(ErrorToastMessage(message), ErrorToast)), screen := InputScreen, isAnalyzing := false)
  }

  /**
    Across a submit the quota count and the history move together, the earlier history stays
    as the tail of the new one, and the queue either stays or gains one request at its end.
   */
  lemma StartAnalysisInvariants(s: Session, reply: Gemini.ServiceReply, queuedId: string, resultId: string, now: int)
    ensures var t := StartAnalysis(s, reply, queuedId, resultId, now);
      && t.settings.analysesCount - |t.history| == s.settings.analysesCount - |s.history|
      && |s.history| <= |t.history| <= |s.history| + 1
      && t.history[|t.history| - |s.history|..] == s.history
      && (t.queuedAnalyses == s.queuedAnalyses || t.queuedAnalyses == s.queuedAnalyses + [QueuedRequest(s, queuedId)])
      && t.customLibraryItems == s.customLibraryItems && t.isOnline == s.isOnline
  {
  }

  // ---------------------------------------------------------------- draining the queue

  /** The drain may start: online, something queued and no analysis running. */
  predicate CanDrain(s: Session) {
    s.isOnline && s.queuedAnalyses != [] && !s.isAnalyzing
  }

  /** The analysis of a queued request, sent with its own stored fields. */
  function AnalyzeQueued(q: QueuedAnalysis, reply: Gemini.ServiceReply, resultId: string, now: int)
    : (r: Result<AnalysisResult, string>)
    ensures r.Success? <==> reply.ServiceAnswered?
    ensures r.Failure? ==> r.error == reply.message
  {
    Gemini.Analyze(RequestOf(q), reply, resultId, now)
  }

  /**
    `processQueue`: a single-flight drain step. Unless it may start, nothing happens; otherwise
    only the head of the queue is sent, with the text, mode, detail level and attachments stored
    with it. A success records the result and removes exactly that head; a failure changes
    nothing else, so the head is retried next time.
   */
  function ProcessQueue(s: Session, reply: Gemini.ServiceReply, resultId: string, now: int): (t: Session)
    ensures !CanDrain(s) ==> t == s
    ensures CanDrain(s) ==> t.sent == s.sent + [RequestOf(s.queuedAnalyses[0])]
    ensures CanDrain(s) && reply.ServiceFailed? ==> t == s.(sent := t.sent)
    ensures CanDrain(s) && reply.ServiceAnswered? ==>
      var result := AnalyzeQueued(s.queuedAnalyses[0], reply, resultId, now).value;
      t == Record(s, result).(queuedAnalyses := s.queuedAnalyses[1..], sent := t.sent)
    ensures !t.isAnalyzing || !CanDrain(s)
  {
    if !s.isOnline || |s.queuedAnalyses| == 0 || s.isAnalyzing then s
    else
      var next := s.queuedAnalyses[0];
      var s1 := s.(sent := s.sent + [RequestOf(next)]);
      match AnalyzeQueued(next, reply, resultId, now)
      case Success(result) => Record(s1, result).(queuedAnalyses := s.queuedAnalyses[1..], isAnalyzing := false)
      case Failure(_) => s1.(isAnalyzing := false)
  }

  /** A drain step keeps count and history in step, and the queue either stays or loses its head. */
  lemma ProcessQueueInvariants(s: Session, reply: Gemini.ServiceReply, resultId: string, now: int)
    ensures var t := ProcessQueue(s, reply, resultId, now);
      && t.settings.analysesCount - |t.history| == s.settings.analysesCount - |s.history|
      && t.history[|t.history| - |s.history|..] == s.history
      && (t.queuedAnalyses == s.queuedAnalyses || (s.queuedAnalyses != [] && t.queuedAnalyses == s.queuedAnalyses[1..]))
      && t.isOnline == s.isOnline && t.screen == s.screen && t.inputText == s.inputText
  {
  }

  /** One interpreter outcome with the id and time it is given. */
  datatype Attempt = Attempt(reply: Gemini.ServiceReply, resultId: string, now: int)

  /** Successive drain steps, one per attempt. */
  function Drain(s: Session, attempts: seq<Attempt>): Session
    decreases |attempts|
  {
    if attempts == [] then s
    else Drain(ProcessQueue(s, attempts[0].reply, attempts[0].resultId, attempts[0].now), attempts[1..])
  }

  predicate AllAnswered(attempts: seq<Attempt>) {
    forall a :: a in attempts ==> a.reply.ServiceAnswered?
  }

  /** The calls for a run of queued requests, in queue order. */
  function RequestsOf(queue: seq<QueuedAnalysis>): (r: seq<Gemini.Request>)
    ensures |r| == |queue| && forall i :: 0 <= i < |queue| ==> r[i] == RequestOf(queue[i])
    decreases |queue|
  {
    if queue == [] then [] else [RequestOf(queue[0])] + RequestsOf(queue[1..])
  }

  lemma RequestsOfPrefix(queue: seq<QueuedAnalysis>, n: nat)
    requires 0 < n <= |queue|
    ensures RequestsOf(queue[..n]) == [RequestOf(queue[0])] + RequestsOf(queue[1..][..n - 1])
  {
    assert queue[..n][1..] == queue[1..][..n - 1];
  }

  /**
    The results of analysing the first `|attempts|` queued requests, newest first: the request
    at queue position `i` gives the result at position `|attempts| - 1 - i`.
   */
  function NewestFirst(queue: seq<QueuedAnalysis>, attempts: seq<Attempt>): (r: seq<AnalysisResult>)
    requires |attempts| <= |queue| && AllAnswered(attempts)
    ensures |r| == |attempts|
    ensures forall i :: 0 <= i < |attempts| ==>
      r[|attempts| - 1 - i] == AnalyzeQueued(queue[i], attempts[i].reply, attempts[i].resultId, attempts[i].now).value
    decreases |attempts|
  {
    if attempts == [] then []
    else
      var a := attempts[0];
      NewestFirst(queue[1..], attempts[1..]) + [AnalyzeQueued(queue[0], a.reply, a.resultId, a.now).value]
  }

  /** One successful drain step, field by field. */
  lemma DrainHead(s: Session, a: Attempt)
    requires s.isOnline && !s.isAnalyzing && s.queuedAnalyses != [] && a.reply.ServiceAnswered?
    ensures var t := ProcessQueue(s, a.reply, a.resultId, a.now);
      && t.queuedAnalyses == s.queuedAnalyses[1..]
      && t.history == [AnalyzeQueued(s.queuedAnalyses[0], a.reply, a.resultId, a.now).value] + s.history
      && t.settings.analysesCount == s.settings.analysesCount + 1
      && t.sent == s.sent + [RequestOf(s.queuedAnalyses[0])]
      && t.isOnline && !t.isAnalyzing
  {
  }

  lemma AllAnsweredTail(attempts: seq<Attempt>)
    requires attempts != [] && AllAnswered(attempts)
    ensures attempts[0].reply.ServiceAnswered? && AllAnswered(attempts[1..])
  {
    assert attempts[0] in attempts;
    forall b | b in attempts[1..] ensures b.reply.ServiceAnswered? {
      assert b in attempts;
    }
  }

  /**
    Draining `n` requests that all succeed is FIFO: exactly the first `n` requests leave the
    queue, the count rises by `n`, and the history gains their results, newest first, in
    front of the earlier history.
   */
  lemma {:induction false} DrainIsFifo(s: Session, attempts: seq<Attempt>)
    requires s.isOnline && !s.isAnalyzing
    requires |attempts| <= |s.queuedAnalyses| && AllAnswered(attempts)
    ensures var t := Drain(s, attempts); var n := |attempts|;
      && t.queuedAnalyses == s.queuedAnalyses[n..]
      && t.settings.analysesCount == s.settings.analysesCount + n
      && t.history == NewestFirst(s.queuedAnalyses, attempts) + s.history
      && t.isOnline && !t.isAnalyzing
    decreases |attempts|
  {
    var n := |attempts|;
    if n > 0 {
      var a, rest := attempts[0], attempts[1..];
      AllAnsweredTail(attempts);
      var s1 := ProcessQueue(s, a.reply, a.resultId, a.now);
      var q1 := s.queuedAnalyses[1..];
      var r0 := AnalyzeQueued(s.queuedAnalyses[0], a.reply, a.resultId, a.now).value;
      DrainHead(s, a);
      DrainIsFifo(s1, rest);
      assert q1[n - 1..] == s.queuedAnalyses[n..];
      assert NewestFirst(s.queuedAnalyses, attempts) == NewestFirst(q1, rest) + [r0];
      Associative(NewestFirst(q1, rest), [r0], s.history);
    }
  }

  /**
    The same drain sends the first `n` queued requests in queue order, each with the text,
    mode, detail level and attachments stored with it.
   */
  lemma {:induction false} DrainSendsInOrder(s: Session, attempts: seq<Attempt>)
    requires s.isOnline && !s.isAnalyzing
    requires |attempts| <= |s.queuedAnalyses| && AllAnswered(attempts)
    ensures Drain(s, attempts).sent == s.sent + RequestsOf(s.queuedAnalyses[..|attempts|])
    decreases |attempts|
  {
    var n := |attempts|;
    if n == 0 {
      assert s.sent + RequestsOf(s.queuedAnalyses[..0]) == s.sent;
    } else {
      var a, rest := attempts[0], attempts[1..];
      AllAnsweredTail(attempts);
      var s1 := ProcessQueue(s, a.reply, a.resultId, a.now);
      var q1 := s.queuedAnalyses[1..];
      var x0 := RequestOf(s.queuedAnalyses[0]);
      assert Drain(s, attempts).sent == Drain(s1, rest).sent;
      assert s1.sent == s.sent + [x0] && s1.isOnline && !s1.isAnalyzing && s1.queuedAnalyses == q1 by {
        DrainHead(s, a);
      }
      assert Drain(s1, rest).sent == s1.sent + RequestsOf(q1[..n - 1]) by {
        DrainSendsInOrder(s1, rest);
      }
      assert RequestsOf(s.queuedAnalyses[..n]) == [x0] + RequestsOf(q1[..n - 1]) by {
        RequestsOfPrefix(s.queuedAnalyses, n);
      }
      Associative(s.sent, [x0], RequestsOf(q1[..n - 1]));
    }
  }

  lemma Associative<T>(a: seq<T>, b: seq<T>, c: seq<T>)
    ensures (a + b) + c == a + (b + c)
  {
  }

  // ---------------------------------------------------------------- persistence

  /**
    The history as persisted after every change and as loaded at start-up: its first
    `MAX_HISTORY_ITEMS` analyses, that is its newest ones.
   */
  function Capped(history: seq<AnalysisResult>): (r: seq<AnalysisResult>)
    ensures |r| <= MAX_HISTORY_ITEMS && |r| <= |history|
    ensures r == history[..|r|]
    ensures |history| <= MAX_HISTORY_ITEMS ==> r == history
    ensures |history| > MAX_HISTORY_ITEMS ==> |r| == MAX_HISTORY_ITEMS
  {
    if |history| > MAX_HISTORY_ITEMS then history[..MAX_HISTORY_ITEMS] else history
  }

  /** Loading what was persisted gives exactly what was persisted. */
  lemma ReloadIsStable(history: seq<AnalysisResult>)
    ensures Capped(Capped(history)) == Capped(history)
  {
  }

  /**
    The start-up restore: each stored list that exists replaces the empty one; the history is
    cut to its first `MAX_HISTORY_ITEMS` entries, the queue and the library are taken whole.
   */
  function Restore(s: Session, savedHistory: Option<seq<AnalysisResult>>, savedQueue: Option<seq<QueuedAnalysis>>,
                   savedLibrary: Option<seq<CustomLibraryItem>>): (t: Session)
    ensures t.history == (if savedHistory.Some? then Capped(savedHistory.value) else s.history)
    ensures t.queuedAnalyses == savedQueue.GetOr(s.queuedAnalyses)
    ensures t.customLibraryItems == savedLibrary.GetOr(s.customLibraryItems)
    ensures t == s.(history := t.history, queuedAnalyses := t.queuedAnalyses, customLibraryItems := t.customLibraryItems)
  {
    s.(history := if savedHistory.Some? then Capped(savedHistory.value) else s.history,
       queuedAnalyses := savedQueue.GetOr(s.queuedAnalyses),
       customLibraryItems := savedLibrary.GetOr(s.customLibraryItems))
  }

  /**
    The cap applies only to the stored copy: a successful submit on a full history holds one
    analysis more in memory, and the stored copy drops the oldest.
   */
  lemma HistoryExceedsCapInMemory(s: Session, reply: Gemini.ServiceReply, queuedId: string, resultId: string, now: int)
    requires Ready(s) && s.isOnline && reply.ServiceAnswered? && |s.history| == MAX_HISTORY_ITEMS
    ensures var t := StartAnalysis(s, reply, queuedId, resultId, now);
      && |t.history| == MAX_HISTORY_ITEMS + 1
      && Capped(t.history) == [t.history[0]] + s.history[..MAX_HISTORY_ITEMS - 1]
  {
    var t := StartAnalysis(s, reply, queuedId, resultId, now);
    var req := SubmitRequest(s);
    var x := Gemini.Analyze(req, reply, resultId, now).value;
    assert t == Submit(s, reply, resultId, now) == Succeeded(s.(sent := s.sent + [req]), x);
    assert t.history == [x] + s.history;
  }

  // ---------------------------------------------------------------- the rule library

  /** An entry of the rule library: a hidden rule and the message and mode it was first found in. */
  datatype RuleEntry = RuleEntry(rule: string, source: string, mode: Mode)

  /** The hidden rules of an analysis; an analysis whose reply lacked the key contributes none. */
  function RulesOf(a: AnalysisResult): seq<string> {
    a.hiddenRules.GetOr([])
  }

  /** Each rule of an analysis, tagged with that analysis' message and mode. */
  function Tagged(a: AnalysisResult): seq<RuleEntry> {
    seq(|RulesOf(a)|, k requires 0 <= k < |RulesOf(a)| => RuleEntry(RulesOf(a)[k], a.originalMessage, a.mode))
  }

  /** Every rule occurrence in the history: analysis by analysis, each analysis' rules in order. */
  function Occurrences(history: seq<AnalysisResult>): seq<RuleEntry>
    decreases |history|
  {
    if history == [] then [] else Occurrences(history[..|history| - 1]) + Tagged(history[|history| - 1])
  }

  function RulesIn(entries: seq<RuleEntry>): set<string> {
    set e | e in entries :: e.rule
  }

  lemma RulesInAppend(a: seq<RuleEntry>, b: seq<RuleEntry>)
    ensures RulesIn(a + b) == RulesIn(a) + RulesIn(b)
  {
    assert forall e :: e in a + b <==> e in a || e in b;
  }

  /**
    Keeps each occurrence whose rule has not occurred before, in the order met: a map keyed by
    rule that is only written when the key is new, read back in insertion order.
   */
  function FirstByRule(occ: seq<RuleEntry>): (r: seq<RuleEntry>)
    ensures |r| <= |occ|
    ensures forall e :: e in r ==> e in occ
    decreases |occ|
  {
    if occ == [] then []
    else
      var prev := FirstByRule(occ[..|occ| - 1]);
      var e := occ[|occ| - 1];
      if e.rule in RulesIn(prev) then prev else prev + [e]
  }

  /** One more occurrence: kept exactly when its rule is new. */
  lemma FirstByRuleSnoc(occ: seq<RuleEntry>, e: RuleEntry)
    ensures FirstByRule(occ + [e])
         == if e.rule in RulesIn(FirstByRule(occ)) then FirstByRule(occ) else FirstByRule(occ) + [e]
  {
    assert (occ + [e])[..|occ|] == occ;
  }

  lemma RulesInSnoc(entries: seq<RuleEntry>, e: RuleEntry)
    ensures RulesIn(entries + [e]) == RulesIn(entries) + {e.rule}
  {
    RulesInAppend(entries, [e]);
    RulesInSingleton(e);
  }

  /** The position of a rule's first occurrence. */
  function FirstIndex(occ: seq<RuleEntry>, rule: string): (k: nat)
    requires rule in RulesIn(occ)
    ensures k < |occ| && occ[k].rule == rule
    ensures forall j :: 0 <= j < k ==> occ[j].rule != rule
    decreases |occ|
  {
    var init := occ[..|occ| - 1];
    assert occ == init + [occ[|occ| - 1]];
    RulesInAppend(init, [occ[|occ| - 1]]);
    if rule in RulesIn(init) then FirstIndex(init, rule)
    else
      assert forall j :: 0 <= j < |init| ==> init[j] in init;
      |occ| - 1
  }

  lemma RulesInSingleton(e: RuleEntry)
    ensures RulesIn([e]) == {e.rule}
  {
    assert forall x :: x in [e] <==> x == e;
  }

  /** Removing the last occurrence does not move the first occurrence of an earlier rule. */
  lemma FirstIndexOfInit(occ: seq<RuleEntry>, rule: string)
    requires occ != [] && rule in RulesIn(occ[..|occ| - 1])
    ensures rule in RulesIn(occ)
    ensures FirstIndex(occ, rule) == FirstIndex(occ[..|occ| - 1], rule)
  {
    assert occ == occ[..|occ| - 1] + [occ[|occ| - 1]];
    RulesInAppend(occ[..|occ| - 1], [occ[|occ| - 1]]);
  }

  /** `FirstByRule` keeps exactly the rules that occur. */
  lemma {:induction false} FirstByRuleRules(occ: seq<RuleEntry>)
    ensures RulesIn(FirstByRule(occ)) == RulesIn(occ)
    decreases |occ|
  {
    if occ != [] {
      var init := occ[..|occ| - 1];
      var e := occ[|occ| - 1];
      assert occ == init + [e];
      FirstByRuleRules(init);
      RulesInAppend(init, [e]);
      RulesInSingleton(e);
      var prev := FirstByRule(init);
      if e.rule !in RulesIn(prev) {
        RulesInAppend(prev, [e]);
      }
    }
  }

  /** `FirstByRule` keeps each rule as the entry of its first occurrence. */
  lemma {:induction false} FirstByRuleFirsts(occ: seq<RuleEntry>)
    ensures var r := FirstByRule(occ);
      && (forall i :: 0 <= i < |r| ==> r[i].rule in RulesIn(occ))
      && (forall i :: 0 <= i < |r| ==> r[i] == occ[FirstIndex(occ, r[i].rule)])
    decreases |occ|
  {
    if occ != [] {
      var init := occ[..|occ| - 1];
      var e := occ[|occ| - 1];
      var prev := FirstByRule(init);
      FirstByRuleFirsts(init);
      FirstByRuleRules(init);
      forall i | 0 <= i < |prev|
        ensures prev[i].rule in RulesIn(occ)
        ensures occ[FirstIndex(occ, prev[i].rule)] == occ[FirstIndex(init, prev[i].rule)]
      {
        FirstIndexOfInit(occ, prev[i].rule);
      }
      if e.rule !in RulesIn(prev) {
        assert occ == init + [e];
        RulesInAppend(init, [e]);
        RulesInSingleton(e);
        assert FirstIndex(occ, e.rule) == |occ| - 1;
      }
    }
  }

  /** The entries of `FirstByRule` are ordered by where each rule first occurs. */
  lemma {:induction false} FirstByRuleOrdered(occ: seq<RuleEntry>)
    ensures var r := FirstByRule(occ);
      && (forall i :: 0 <= i < |r| ==> r[i].rule in RulesIn(occ))
      && (forall i, j :: 0 <= i < j < |r| ==> FirstIndex(occ, r[i].rule) < FirstIndex(occ, r[j].rule))
    decreases |occ|
  {
    if occ != [] {
      var init := occ[..|occ| - 1];
      var e := occ[|occ| - 1];
      var prev := FirstByRule(init);
      FirstByRuleOrdered(init);
      FirstByRuleRules(init);
      forall i | 0 <= i < |prev|
        ensures prev[i].rule in RulesIn(occ)
        ensures FirstIndex(occ, prev[i].rule) == FirstIndex(init, prev[i].rule) < |occ| - 1
      {
        FirstIndexOfInit(occ, prev[i].rule);
      }
      if e.rule !in RulesIn(prev) {
        assert occ == init + [e];
        RulesInAppend(init, [e]);
        RulesInSingleton(e);
        assert FirstIndex(occ, e.rule) == |occ| - 1;
      }
    }
  }

  /** Distinct entries of `FirstByRule` have distinct rules. */
  lemma FirstByRuleDistinct(occ: seq<RuleEntry>)
    ensures var r := FirstByRule(occ);
      forall i, j :: 0 <= i < j < |r| ==> r[i].rule != r[j].rule
  {
    FirstByRuleOrdered(occ);
  }

  /** The prefix of the history up to `a` contributes a prefix of the occurrences. */
  lemma {:induction false} OccurrencesPrefix(history: seq<AnalysisResult>, a: nat)
    requires a <= |history|
    ensures |Occurrences(history[..a])| <= |Occurrences(history)|
    ensures Occurrences(history[..a]) == Occurrences(history)[..|Occurrences(history[..a])|]
    decreases |history| - a
  {
    if a == |history| {
      assert history[..a] == history;
    } else {
      OccurrencesPrefix(history, a + 1);
      assert history[..a + 1][..a] == history[..a];
      assert Occurrences(history[..a + 1]) == Occurrences(history[..a]) + Tagged(history[a]);
    }
  }

  /** The analyses up to and including `a` contribute those before it, then `a`'s own rules. */
  lemma OccurrencesStep(history: seq<AnalysisResult>, a: nat)
    requires a < |history|
    ensures Occurrences(history[..a + 1]) == Occurrences(history[..a]) + Tagged(history[a])
  {
    assert history[..a + 1][..a] == history[..a];
  }

  /** Rule `m` of analysis `a` sits at offset `m` past the occurrences of the analyses before `a`. */
  lemma OccurrenceAt(history: seq<AnalysisResult>, a: nat, m: nat)
    requires a < |history| && m < |RulesOf(history[a])|
    ensures |Occurrences(history[..a])| + m < |Occurrences(history[..a + 1])| <= |Occurrences(history)|
    ensures Occurrences(history)[|Occurrences(history[..a])| + m] == Tagged(history[a])[m]
  {
    OccurrencesPrefix(history, a + 1);
    assert history[..a + 1][..a] == history[..a];
    assert Occurrences(history[..a + 1]) == Occurrences(history[..a]) + Tagged(history[a]);
  }

  /** Earlier analyses contribute no more occurrences than later prefixes. */
  lemma OccurrencesMonotone(history: seq<AnalysisResult>, x: nat, y: nat)
    requires x <= y <= |history|
    ensures |Occurrences(history[..x])| <= |Occurrences(history[..y])|
  {
    OccurrencesPrefix(history[..y], x);
    assert history[..y][..x] == history[..x];
  }

  /** The analysis an occurrence comes from. */
  function Owner(history: seq<AnalysisResult>, k: nat): (a: nat)
    requires k < |Occurrences(history)|
    ensures a < |history|
    ensures |Occurrences(history[..a])| <= k < |Occurrences(history[..a + 1])|
    decreases |history|
  {
    var n := |history| - 1;
    if k < |Occurrences(history[..n])| then
      var a := Owner(history[..n], k);
      assert history[..n][..a] == history[..a];
      assert history[..n][..a + 1] == history[..a + 1];
      a
    else
      assert history[..n + 1] == history;
      n
  }

  /**
    `allDiscoveredRules`: the distinct hidden rules of the history, each with the message and
    mode of the first analysis that contains it, ordered by first occurrence.
   */
  function DiscoveredRules(history: seq<AnalysisResult>): (r: seq<RuleEntry>)
    ensures |r| <= |Occurrences(history)|
    ensures forall e :: e in r ==> e in Occurrences(history)
  {
    FirstByRule(Occurrences(history))
  }

  /** `e` names a rule of analysis `a` and is tagged with `a`, the first analysis that has the rule. */
  predicate FirstFoundIn(history: seq<AnalysisResult>, e: RuleEntry, a: int) {
    && 0 <= a < |history|
    && e.rule in RulesOf(history[a])
    && e.source == history[a].originalMessage && e.mode == history[a].mode
    && forall b :: 0 <= b < a ==> e.rule !in RulesOf(history[b])
  }

  /** Every rule of every analysis occurs. */
  lemma OccursSomewhere(history: seq<AnalysisResult>, a: nat, m: nat)
    requires a < |history| && m < |RulesOf(history[a])|
    ensures RulesOf(history[a])[m] in RulesIn(Occurrences(history))
  {
    OccurrenceAt(history, a, m);
    var occ := Occurrences(history);
    assert occ[|Occurrences(history[..a])| + m] in occ;
  }

  /** The analysis holding the first occurrence of a rule. */
  function SourceOf(history: seq<AnalysisResult>, rule: string): nat
    requires rule in RulesIn(Occurrences(history))
  {
    Owner(history, FirstIndex(Occurrences(history), rule))
  }

  /** The first occurrence of a rule lies in the first analysis that has the rule, and is tagged with it. */
  lemma FirstOccurrenceSource(history: seq<AnalysisResult>, rule: string)
    requires rule in RulesIn(Occurrences(history))
    ensures FirstFoundIn(history, Occurrences(history)[FirstIndex(Occurrences(history), rule)], SourceOf(history, rule))
  {
    var occ := Occurrences(history);
    var k := FirstIndex(occ, rule);
    var a := SourceOf(history, rule);
    var start := |Occurrences(history[..a])|;
    OccurrencesStep(history, a);
    OccurrenceAt(history, a, k - start);
    var e := occ[k];
    assert e.rule == RulesOf(history[a])[k - start];
    forall b | 0 <= b < a ensures rule !in RulesOf(history[b]) {
      if rule in RulesOf(history[b]) {
        var m :| 0 <= m < |RulesOf(history[b])| && RulesOf(history[b])[m] == rule;
        OccurrenceAt(history, b, m);
        OccurrencesMonotone(history, b + 1, a);
        assert false;
      }
    }
  }

  /**
    The rule library lists each hidden rule of the history exactly once, misses none, tags
    each with the first analysis containing it, and keeps the order of first occurrence.
   */
  lemma DiscoveredRulesCorrect(history: seq<AnalysisResult>)
    ensures var r := DiscoveredRules(history);
      && (forall i, j :: 0 <= i < j < |r| ==> r[i].rule != r[j].rule)
      && (forall a, m :: 0 <= a < |history| && 0 <= m < |RulesOf(history[a])| ==> RulesOf(history[a])[m] in RulesIn(r))
      && (forall i :: 0 <= i < |r| ==> r[i].rule in RulesIn(Occurrences(history)))
      && (forall i :: 0 <= i < |r| ==> FirstFoundIn(history, r[i], SourceOf(history, r[i].rule)))
      && (forall i, j :: 0 <= i < j < |r| ==>
            FirstIndex(Occurrences(history), r[i].rule) < FirstIndex(Occurrences(history), r[j].rule))
  {
    var occ := Occurrences(history);
    var r := DiscoveredRules(history);
    FirstByRuleRules(occ);
    FirstByRuleFirsts(occ);
    FirstByRuleOrdered(occ);
    FirstByRuleDistinct(occ);
    forall a, m | 0 <= a < |history| && 0 <= m < |RulesOf(history[a])|
      ensures RulesOf(history[a])[m] in RulesIn(r)
    {
      OccursSomewhere(history, a, m);
    }
    forall i | 0 <= i < |r| ensures FirstFoundIn(history, r[i], SourceOf(history, r[i].rule)) {
      FirstOccurrenceSource(history, r[i].rule);
    }
  }

  /**
    The rule library as the shell computes it: it walks each analysis' `hiddenRules`, so an
    analysis without that key makes the computation fail (`None`).
   */
  function DiscoveredRulesAsWritten(history: seq<AnalysisResult>): (r: Option<seq<RuleEntry>>)
    ensures r.None? <==> exists a :: 0 <= a < |history| && history[a].hiddenRules.None?
    ensures r.Some? ==> r.value == DiscoveredRules(history)
  {
    if forall a :: 0 <= a < |history| ==> history[a].hiddenRules.Some? then Some(DiscoveredRules(history))
    else None
  }

  /** A result prepended to the history contributes its rules before all the others. */
  lemma {:induction false} OccurrencesCons(x: AnalysisResult, history: seq<AnalysisResult>)
    ensures Occurrences([x] + history) == Tagged(x) + Occurrences(history)
    decreases |history|
  {
    if history == [] {
      assert [x] + history == [x];
      assert ([x] + history)[..0] == [];
    } else {
      var init := history[..|history| - 1];
      var h := [x] + history;
      assert h[..|h| - 1] == [x] + init;
      OccurrencesCons(x, init);
    }
  }

  /**
    An empty reply text is recorded as an analysis without `hiddenRules`; from then on the rule
    library as written fails, while the corrected one is unchanged by that analysis.
   */
  lemma EmptyReplyBreaksRuleLibrary(s: Session, queuedId: string, resultId: string, now: int)
    requires Ready(s) && s.isOnline
    ensures var t := StartAnalysis(s, Gemini.ServiceAnswered(None), queuedId, resultId, now);
      && DiscoveredRulesAsWritten(t.history).None?
      && DiscoveredRules(t.history) == DiscoveredRules(s.history)
  {
    var reply := Gemini.ServiceAnswered(None);
    var req := SubmitRequest(s);
    Gemini.EmptyReplyHasOnlyClientFields(req, resultId, now);
    var x := Gemini.Analyze(req, reply, resultId, now).value;
    assert x.hiddenRules.None?;
    var t := StartAnalysis(s, reply, queuedId, resultId, now);
    assert t.history == [x] + s.history;
    assert t.history[0].hiddenRules.None?;
    assert RulesOf(x) == [];
    assert Tagged(x) == [];
    OccurrencesCons(x, s.history);
    assert Occurrences(t.history) == Occurrences(s.history);
  }

  // ---------------------------------------------------------------- library, accordion, history

  /** `handleAddLibraryItem`: the new item, with its id and creation time, goes first. */
  function AddLibraryItem(s: Session, item: LibraryDraft, id: string, now: int): (t: Session)
    ensures t.customLibraryItems == [CustomLibraryItem(id, now, item)] + s.customLibraryItems
    ensures t == s.(customLibraryItems := t.customLibraryItems, toast := Some(Toast(LIBRARY_ADDED_MESSAGE, SuccessToast)))
  {
    s.(customLibraryItems := [CustomLibraryItem(id, now, item)] + s.customLibraryItems,
       toast := Some(Toast(LIBRARY_ADDED_MESSAGE, SuccessToast)))
  }

  /** The items whose id differs from `id`, in their order. */
  function WithoutItem(items: seq<CustomLibraryItem>, id: string): (r: seq<CustomLibraryItem>)
    ensures forall x :: x in r <==> x in items && x.id != id
    ensures |r| <= |items|
    decreases |items|
  {
    if items == [] then []
    else (if items[0].id == id then [] else [items[0]]) + WithoutItem(items[1..], id)
  }

  /**
    Filtering distributes over concatenation, and a single item is kept exactly when its id
    differs: the kept items stay in their order, each as often as it occurred.
   */
  lemma {:induction false} WithoutItemAppend(a: seq<CustomLibraryItem>, b: seq<CustomLibraryItem>, id: string)
    ensures WithoutItem(a + b, id) == WithoutItem(a, id) + WithoutItem(b, id)
    decreases |a|
  {
    if a == [] {
      assert a + b == b;
    } else {
      assert (a + b)[0] == a[0] && (a + b)[1..] == a[1..] + b;
      WithoutItemAppend(a[1..], b, id);
    }
  }

  lemma WithoutItemSingle(x: CustomLibraryItem, id: string)
    ensures WithoutItem([x], id) == if x.id == id then [] else [x]
  {
  }

  /** Removing an id no item has leaves the items as they are. */
  lemma {:induction false} WithoutAbsentItem(items: seq<CustomLibraryItem>, id: string)
    requires forall x :: x in items ==> x.id != id
    ensures WithoutItem(items, id) == items
    decreases |items|
  {
    if items != [] {
      assert items[0] in items;
      WithoutAbsentItem(items[1..], id);
      assert [items[0]] + items[1..] == items;
    }
  }

  /** `handleDeleteLibraryItem`: after confirmation every item with that id is gone. */
  function DeleteLibraryItem(s: Session, id: string, confirmed: bool): (t: Session)
    ensures !confirmed ==> t == s
    ensures confirmed ==> forall x :: x in t.customLibraryItems <==> x in s.customLibraryItems && x.id != id
    ensures confirmed ==> t.customLibraryItems == WithoutItem(s.customLibraryItems, id)
    ensures confirmed ==> t == s.(customLibraryItems := t.customLibraryItems,
                                  toast := Some(Toast(LIBRARY_REMOVED_MESSAGE, SuccessToast)))
  {
    if confirmed then
      s.(customLibraryItems := WithoutItem(s.customLibraryItems, id),
         toast := Some(Toast(LIBRARY_REMOVED_MESSAGE, SuccessToast)))
    else s
  }

  /** Deleting an item just added under a fresh id restores the library. */
  lemma AddThenDeleteRestoresLibrary(s: Session, item: LibraryDraft, id: string, now: int)
    requires forall x :: x in s.customLibraryItems ==> x.id != id
    ensures DeleteLibraryItem(AddLibraryItem(s, item, id, now), id, true).customLibraryItems == s.customLibraryItems
  {
    var items := [CustomLibraryItem(id, now, item)] + s.customLibraryItems;
    assert items[1..] == s.customLibraryItems;
    WithoutAbsentItem(s.customLibraryItems, id);
  }

  /** The sections other than `x`, in their order. */
  function Without(sections: seq<string>, x: string): (r: seq<string>)
    ensures forall y :: y in r <==> y in sections && y != x
    ensures x !in sections ==> r == sections
    decreases |sections|
  {
    if sections == [] then []
    else (if sections[0] == x then [] else [sections[0]]) + Without(sections[1..], x)
  }

  /** `toggleSection`: an open section closes (every copy of it), a closed one opens at the end. */
  function Toggle(sections: seq<string>, id: string): (r: seq<string>)
    ensures id in r <==> id !in sections
    ensures id in sections ==> forall y :: y in r <==> y in sections && y != id
    ensures id !in sections ==> r == sections + [id]
  {
    if id in sections then Without(sections, id) else sections + [id]
  }

  lemma {:induction false} WithoutSnoc(sections: seq<string>, x: string)
    ensures Without(sections + [x], x) == Without(sections, x)
    decreases |sections|
  {
    if sections == [] {
      assert Without([x], x) == [] + Without([], x);
    } else {
      assert (sections + [x])[1..] == sections[1..] + [x];
      WithoutSnoc(sections[1..], x);
    }
  }

  /** Opening a closed section and closing it again restores the list. */
  lemma ToggleTwice(sections: seq<string>, id: string)
    requires id !in sections
    ensures Toggle(Toggle(sections, id), id) == sections
  {
    WithoutSnoc(sections, id);
  }

  function ToggleSection(s: Session, id: string): (t: Session)
    ensures t.expandedSections == Toggle(s.expandedSections, id)
    ensures t == s.(expandedSections := t.expandedSections)
  {
    s.(expandedSections := Toggle(s.expandedSections, id))
  }

  /** Clearing the history after confirmation; the quota count is kept. */
  function ClearHistory(s: Session, confirmed: bool): (t: Session)
    ensures confirmed ==> t.history == [] && t.settings == s.settings
    ensures t == s.(history := t.history)
    ensures !confirmed ==> t == s
  {
    if confirmed then s.(history := []) else s
  }

  /** The browser's connectivity events. */
  function SetOnline(s: Session, online: bool): (t: Session)
    ensures t.isOnline == online && t == s.(isOnline := online)
  {
    s.(isOnline := online)
  }
}
