/**
  The application shell (App.tsx) as an object whose fields are its state. Each handler
  updates the fields in place, in the order the shell does, and is proved to reach the state
  the matching `Lifecycle` transition describes; the properties of those transitions are
  proved in `Lifecycle`.
 */
module AppShell {
  import opened Wrappers
  import opened Text
  import opened Types
  import Gemini
  import Lifecycle

  class App {
    var screen: Screen
    var selectedMode: Option<Mode>
    var inputText: string
    var selectedImage: Option<Media>
    var selectedAudio: Option<Media>
    var isAnalyzing: bool
    var currentAnalysis: Option<AnalysisResult>
    var history: seq<AnalysisResult>
    var expandedSections: seq<string>
    var isOnline: bool
    var queuedAnalyses: seq<QueuedAnalysis>
    var toast: Option<Lifecycle.Toast>
    var customLibraryItems: seq<CustomLibraryItem>
    var settings: UserSettings
    /** The requests handed to the interpreter, oldest first; the shell itself does not keep them. */
    ghost var sent: seq<Gemini.Request>

    /** The fields as one value. */
    ghost function Snapshot(): Lifecycle.Session
      reads this
    {
      Lifecycle.Session(screen, selectedMode, inputText, selectedImage, selectedAudio, isAnalyzing,
                        currentAnalysis, history, expandedSections, isOnline, queuedAnalyses, toast,
                        customLibraryItems, settings, sent)
    }

    /** Start-up state; connectivity is read from the browser. */
    constructor (online: bool)
      ensures Snapshot() == Lifecycle.Initial(online)
    {
      screen := Welcome;
      selectedMode := None;
      inputText := "";
      selectedImage, selectedAudio := None, None;
      isAnalyzing := false;
      currentAnalysis := None;
      history := [];
      expandedSections := [Lifecycle.INITIAL_SECTION];
      isOnline := online;
      queuedAnalyses := [];
      toast := None;
      customLibraryItems := [];
      settings := Lifecycle.DEFAULT_SETTINGS;
      sent := [];
    }

    /** `handleStartAnalysis`, with the interpreter's outcome, the new ids and the clock given. */
    method StartAnalysis(reply: Gemini.ServiceReply, queuedId: string, resultId: string, now: int)
      modifies this
      ensures Snapshot() == Lifecycle.StartAnalysis(old(Snapshot()), reply, queuedId, resultId, now)
    {
      ghost var s := Snapshot();
      if settings.tier == Free && settings.analysesCount >= FREE_TIER_LIMIT {
        screen := Paywall;
        return;
      }
      if Trim(inputText) == [] && selectedImage.None? && selectedAudio.None? {
        return;
      }
      if selectedMode.None? {
        return;
      }
      assert Lifecycle.Ready(s);
      if !isOnline {
        Enqueue(queuedId);
        assert Snapshot() == Lifecycle.Enqueue(s, queuedId);
        return;
      }
      Submit(reply, resultId, now);
      assert Snapshot() == Lifecycle.Submit(s, reply, resultId, now);
    }

    /** The offline branch of `handleStartAnalysis`. */
    method Enqueue(queuedId: string)
      requires selectedMode.Some?
      modifies this
      ensures Snapshot() == Lifecycle.Enqueue(old(Snapshot()), queuedId)
    {
      var newQueued := QueuedAnalysis(queuedId, inputText, selectedMode.value, settings.analysisDetail,
                                      selectedImage, selectedAudio);
      queuedAnalyses := queuedAnalyses + [newQueued];
      toast := Some(Lifecycle.Toast(Lifecycle.OFFLINE_QUEUED_MESSAGE, Lifecycle.OfflineToast));
      screen := Home;
      inputText := "";
      selectedImage := None;
      selectedAudio := None;
    }

    /** The online branch of `handleStartAnalysis`: the direct analysis and its outcome. */
    method Submit(reply: Gemini.ServiceReply, resultId: string, now: int)
      requires selectedMode.Some?
      modifies this
      ensures Snapshot() == Lifecycle.Submit(old(Snapshot()), reply, resultId, now)
    {
      Lifecycle.SubmitOverwritesProgress(Snapshot(), reply, resultId, now);
      screen := Loading;
      isAnalyzing := true;
      ghost var during := Snapshot();
      var request := Gemini.Request(inputText, selectedMode.value, settings.analysisDetail, selectedImage, selectedAudio);
      sent := sent + [request];
      ghost var requested := Snapshot();
      assert request == Lifecycle.SubmitRequest(during);
      assert requested == during.(sent := during.sent + [request]);
      var outcome := Gemini.Analyze(request, reply, resultId, now);
      if outcome.Success? {
        Succeed(outcome.value);
      } else {
        Fail(outcome.error);
      }
      assert Snapshot() == Lifecycle.Submit(during, reply, resultId, now);
    }

    /** The `try` branch of the direct analysis, with its `finally`. */
    method Succeed(result: AnalysisResult)
      modifies this
      ensures Snapshot() == Lifecycle.Succeeded(old(Snapshot()), result)
    {
      ghost var s := Snapshot();
      currentAnalysis := Some(result);
      RecordResult(result);
      ghost var recorded := Snapshot();
      assert recorded == Lifecycle.Record(s, result).(currentAnalysis := Some(result));
      screen := Results;
      ClearComposer();
      isAnalyzing := false;
      assert Snapshot() == Lifecycle.ClearInput(recorded).(screen := Results, isAnalyzing := false);
    }

    /** The two updates a success makes wherever it comes from: the result prepended, one more use counted. */
    method RecordResult(result: AnalysisResult)
      modifies this
      ensures Snapshot() == Lifecycle.Record(old(Snapshot()), result)
    {
      history := [result] + history;
      settings := settings.(analysesCount := settings.analysesCount + 1);
    }

    /** Empties the composer's text and attachments. */
    method ClearComposer()
      modifies this
      ensures Snapshot() == Lifecycle.ClearInput(old(Snapshot()))
    {
      inputText := "";
      selectedImage := None;
      selectedAudio := None;
    }

    /** The `catch` branch of the direct analysis, with its `finally`: the input is kept. */
    method Fail(message: string)
      modifies this
      ensures Snapshot() == Lifecycle.Failed(old(Snapshot()), message)
    {
      var errorMsg := if message != [] then message else Lifecycle.ANALYSIS_ERROR_FALLBACK;
      toast := Some(Lifecycle.Toast(errorMsg, Lifecycle.ErrorToast));
      screen := InputScreen;
      isAnalyzing := false;
    }

    /** `processQueue`: one drain step for the head of the queue. */
    method ProcessQueue(reply: Gemini.ServiceReply, resultId: string, now: int)
      modifies this
      ensures Snapshot() == Lifecycle.ProcessQueue(old(Snapshot()), reply, resultId, now)
    {
      if !isOnline || |queuedAnalyses| == 0 || isAnalyzing {
        return;
      }
      ghost var s := Snapshot();
      var nextRequest := queuedAnalyses[0];
      isAnalyzing := true;
      var request := Gemini.Request(nextRequest.message, nextRequest.mode, nextRequest.detailLevel,
                                    nextRequest.image, nextRequest.audio);
      sent := sent + [request];
      assert request == Lifecycle.RequestOf(s.queuedAnalyses[0]);
      ghost var requested := s.(sent := s.sent + [request]);
      var outcome := Gemini.Analyze(request, reply, resultId, now);
      assert outcome == Lifecycle.AnalyzeQueued(s.queuedAnalyses[0], reply, resultId, now);
      assert Snapshot() == requested.(isAnalyzing := true);
      if outcome.Success? {
        RecordResult(outcome.value);
        ghost var recorded := Lifecycle.Record(requested, outcome.value);
        assert Snapshot() == recorded.(isAnalyzing := true);
        queuedAnalyses := queuedAnalyses[1..];
        isAnalyzing := false;
        assert Snapshot() == recorded.(queuedAnalyses := s.queuedAnalyses[1..], isAnalyzing := false)
                          == Lifecycle.ProcessQueue(s, reply, resultId, now);
      } else {
        isAnalyzing := false;
        assert Snapshot() == requested.(isAnalyzing := false) == Lifecycle.ProcessQueue(s, reply, resultId, now);
      }
    }

    /** The history as stored after every change: its newest `MAX_HISTORY_ITEMS` analyses. */
    function PersistedHistory(): (stored: seq<AnalysisResult>)
      reads this
      ensures |stored| <= Lifecycle.MAX_HISTORY_ITEMS && |stored| <= |history|
      ensures stored == history[..|stored|]
      ensures |history| <= Lifecycle.MAX_HISTORY_ITEMS ==> stored == history
      ensures |history| > Lifecycle.MAX_HISTORY_ITEMS ==> |stored| == Lifecycle.MAX_HISTORY_ITEMS
    {
      Lifecycle.Capped(history)
    }

    /** The start-up restore of the stored history, queue and library. */
    method Restore(savedHistory: Option<seq<AnalysisResult>>, savedQueue: Option<seq<QueuedAnalysis>>,
                   savedLibrary: Option<seq<CustomLibraryItem>>)
      modifies this
      ensures Snapshot() == Lifecycle.Restore(old(Snapshot()), savedHistory, savedQueue, savedLibrary)
    {
      if savedHistory.Some? {
        var parsed := savedHistory.value;
        if |parsed| > Lifecycle.MAX_HISTORY_ITEMS {
          parsed := parsed[..Lifecycle.MAX_HISTORY_ITEMS];
        }
        history := parsed;
      }
      if savedQueue.Some? {
        queuedAnalyses := savedQueue.value;
      }
      if savedLibrary.Some? {
        customLibraryItems := savedLibrary.value;
      }
    }

    /** The browser's `online` and `offline` events. */
    method SetOnline(online: bool)
      modifies this
      ensures Snapshot() == Lifecycle.SetOnline(old(Snapshot()), online)
    {
      isOnline := online;
    }

    /** `handleAddLibraryItem`, with the new id and the clock given. */
    method AddLibraryItem(item: LibraryDraft, id: string, now: int)
      modifies this
      ensures Snapshot() == Lifecycle.AddLibraryItem(old(Snapshot()), item, id, now)
    {
      var newItem := CustomLibraryItem(id, now, item);
      customLibraryItems := [newItem] + customLibraryItems;
      toast := Some(Lifecycle.Toast(Lifecycle.LIBRARY_ADDED_MESSAGE, Lifecycle.SuccessToast));
    }

    /** `handleDeleteLibraryItem`, with the user's answer to the confirmation given. */
    method DeleteLibraryItem(id: string, confirmed: bool)
      modifies this
      ensures Snapshot() == Lifecycle.DeleteLibraryItem(old(Snapshot()), id, confirmed)
    {
      if confirmed {
        customLibraryItems := Lifecycle.WithoutItem(customLibraryItems, id);
        toast := Some(Lifecycle.Toast(Lifecycle.LIBRARY_REMOVED_MESSAGE, Lifecycle.SuccessToast));
      }
    }

    /** `toggleSection` of the results accordion. */
    method ToggleSection(id: string)
      modifies this
      ensures Snapshot() == Lifecycle.ToggleSection(old(Snapshot()), id)
    {
      expandedSections := Lifecycle.Toggle(expandedSections, id);
    }

    /** The settings screen's "clear local data" button, with the confirmation's answer given. */
    method ClearHistory(confirmed: bool)
      modifies this
      ensures Snapshot() == Lifecycle.ClearHistory(old(Snapshot()), confirmed)
    {
      if confirmed {
        history := [];
      }
    }

    /**
      `allDiscoveredRules`: walks the history and each analysis' hidden rules, recording a rule
      the first time it is seen.
     */
    method AllDiscoveredRules() returns (rules: seq<Lifecycle.RuleEntry>)
      ensures rules == Lifecycle.DiscoveredRules(history)
    {
      var seen: set<string> := {};
      rules := [];
      var i := 0;
      while i < |history|
        invariant 0 <= i <= |history|
        invariant rules == Lifecycle.FirstByRule(Lifecycle.Occurrences(history[..i]))
        invariant seen == Lifecycle.RulesIn(rules)
      {
        rules, seen := RecordRules(history[i], rules, seen, Lifecycle.Occurrences(history[..i]));
        Lifecycle.OccurrencesStep(history, i);
        i := i + 1;
      }
      assert history[..i] == history;
    }
  }

  /**
    The inner walk of `allDiscoveredRules` over one analysis' hidden rules: a rule not yet seen
    is recorded with this analysis' message and mode. `before` is the occurrences walked so far.
   */
  method RecordRules(analysis: AnalysisResult, rules0: seq<Lifecycle.RuleEntry>, seen0: set<string>,
                     ghost before: seq<Lifecycle.RuleEntry>)
    returns (rules: seq<Lifecycle.RuleEntry>, seen: set<string>)
    requires rules0 == Lifecycle.FirstByRule(before) && seen0 == Lifecycle.RulesIn(rules0)
    ensures rules == Lifecycle.FirstByRule(before + Lifecycle.Tagged(analysis))
    ensures seen == Lifecycle.RulesIn(rules)
  {
    rules, seen := rules0, seen0;
    var hidden := Lifecycle.RulesOf(analysis);
    ghost var tagged := Lifecycle.Tagged(analysis);
    var j := 0;
    assert before + tagged[..j] == before;
    while j < |hidden|
      invariant 0 <= j <= |hidden|
      invariant rules == Lifecycle.FirstByRule(before + tagged[..j])
      invariant seen == Lifecycle.RulesIn(rules)
    {
      var rule := hidden[j];
      var entry := Lifecycle.RuleEntry(rule, analysis.originalMessage, analysis.mode);
      assert before + tagged[..j + 1] == (before + tagged[..j]) + [entry];
      Lifecycle.FirstByRuleSnoc(before + tagged[..j], entry);
      if rule !in seen {
        Lifecycle.RulesInSnoc(rules, entry);
        rules := rules + [entry];
        seen := seen + {rule};
      }
      j := j + 1;
    }
    assert tagged[..j] == tagged;
  }
}
