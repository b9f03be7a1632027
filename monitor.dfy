/** The polling completion engine: a timer-driven state machine that watches
    the chat while one entry is being processed and decides when the entry is
    done (finish), abandoned (error) or needs a nudge ("Продолжить").

    Everything outside the engine is an input of the step that uses it: the
    clock reading `now` (whole milliseconds), the answer of the entry
    back-end (`EntryLookup`), the exported transcript (`Option<Json>`, `None`
    when the transcript could not be read), and whether sending a message to the
    chat succeeded. Callbacks are recorded in `signals` in the order they are
    invoked and messages sent to the chat in `sent`. */
module Monitor {
  import opened Optional
  import opened JsonValue
  import opened Text
  import opened AnalyzerStatus
  import opened AnalyzerMcp
  import opened ChatUtils

  /** The entry status is asked for on every third tick. */
  const StatusCheckInterval: nat := 3
  /** Maximum processing time, in seconds, when the configuration sets none. */
  const DefaultMaxWaitTime: int := 600
  const SaveToolName: string := "update_entry_fields"
  const ContinuePrompt: string := "Продолжить"
  const CanceledMessage: string := "Обработка отменена пользователем"
  const SendErrorPrefix: string := "Ошибка при отправке записи в чат: "
  const SummaryMarkerEn: string := "Summarized conversation history"
  const SummaryMarkerRu: string := "суммаризация истории"
  /** The engine never updates the chat status it reports. */
  const ChatStatusLabel: string := "unknown"

  datatype Entry = Entry(id: string, documentId: string, rowNumber: int)

  datatype Config = Config(
    checkInterval: int,
    pauseThreshold: int,
    enableEntryStatusCheck: Option<bool>,
    maxWaitTime: Option<int>)

  /** What the entry back-end answered: the entry with its processed flag,
      no such entry, or a failed request. */
  datatype EntryLookup = Found(isAiProcessed: bool) | NotFound | LookupFailed

  /** Outcome of handing the entry's prompt to the chat. */
  datatype SendResult = Sent | SendFailed(error: string)

  /** A callback invocation: `onChatCompleted` or `onError(message)`. */
  datatype Signal = ChatCompleted | ChatError(message: string)

  datatype MonitorState = MonitorState(
    isMonitoring: bool,
    currentEntry: Option<Entry>,
    lastChatContent: Option<string>,
    lastChangeTime: int,
    lastProgressTime: int,
    entryProcessingStartTime: int,
    statusCheckCounter: nat,
    summarizationDetected: bool)

  /** Everything the engine owns, as one value: the state record, the
      configuration, whether the polling timer is installed, and the effects
      so far. */
  datatype Machine = Machine(
    state: MonitorState,
    config: Config,
    timerActive: bool,
    signals: seq<Signal>,
    sent: seq<string>)

  /** The timer runs exactly while monitoring, and the counter never reaches
      the interval between ticks. */
  predicate ValidMachine(m: Machine) {
    m.timerActive == m.state.isMonitoring && m.state.statusCheckCounter < StatusCheckInterval
  }

  function InitialState(now: int): MonitorState {
    MonitorState(false, None, None, now, now, 0, 0, false)
  }

  /** `checkEntryProcessingStatus`: only an entry that exists and is marked
      processed counts; a missing entry or a failed request reads as
      unprocessed. */
  function CheckEntryProcessingStatus(answer: EntryLookup): (processed: bool)
    ensures answer.NotFound? || answer.LookupFailed? ==> !processed
    ensures answer.Found? ==> processed == answer.isAiProcessed
  {
    match answer
    case Found(p) => p
    case _ => false
  }

  /** `analyzeChatStatus` as far as the engine uses it: no result when the
      export failed, when the transcript is falsy, or when the analyzer
      throws; otherwise the dialog status. */
  function AnalyzeChatStatus(transcript: Option<Json>): (r: Option<DialogStatus>)
    ensures r.Some? <==> Truthy(transcript) && GetDialogStatus(transcript.value).Returns?
    ensures r.Some? ==> GetDialogStatus(transcript.value) == Returns(r.value)
    ensures r.Some? ==> GetDialogStatusDetails(transcript.value).Returns?
  {
    if !Truthy(transcript) then None
    else
      var st := GetDialogStatus(transcript.value);
      if st.Throws? then None else Some(st.value)
  }

  /** `detectSaveOperation`: the transcript holds an `update_entry_fields`
      MCP call that did not report an error. Any failure on the way reads as
      "no save". */
  function DetectSaveOperation(transcript: Option<Json>): (saved: bool)
    ensures saved <==>
      AnalyzeChatStatus(transcript).Some? && GetMcpToolCalls(transcript.value, SaveToolName).Returns?
      && exists c :: c in ExtractMcpToolCalls(transcript.value).value
           && Matches(c, SaveToolName) == Returns(true) && !Truthy(Some(c.isError))
    ensures transcript.None? ==> !saved
  {
    if AnalyzeChatStatus(transcript).None? then false
    else
      var calls := GetMcpToolCalls(transcript.value, SaveToolName);
      calls.Returns? && exists c :: c in calls.value && !Truthy(Some(c.isError))
  }

  predicate EntryCheckEnabled(m: Machine) {
    m.state.currentEntry.Some? && m.config.enableEntryStatusCheck != Some(false)
  }

  /** `maxWaitTime || 600` */
  function MaxWait(cfg: Config): (w: int)
    ensures w != 0
    ensures cfg.maxWaitTime.Some? && cfg.maxWaitTime.value != 0 ==> w == cfg.maxWaitTime.value
  {
    if cfg.maxWaitTime.Some? && cfg.maxWaitTime.value != 0 then cfg.maxWaitTime.value else DefaultMaxWaitTime
  }

  function MaxWaitMessage(rowNumber: int): string {
    "⚠️ Превышено время ожидания для записи " + IntToString(rowNumber) + ". Обработка остановлена."
  }

  function Emit(m: Machine, s: Signal): Machine {
    m.(signals := m.signals + [s])
  }

  /** The counter after one counted tick. */
  function NextCounter(c: nat): nat {
    if c + 1 >= StatusCheckInterval then 0 else c + 1
  }

  predicate QueriesOracle(c: nat) {
    c + 1 >= StatusCheckInterval
  }

  function StartSpec(m: Machine, now: int): Machine {
    if m.state.isMonitoring then m
    else m.(state := m.state.(isMonitoring := true, lastChangeTime := now, lastProgressTime := now,
                              summarizationDetected := false, statusCheckCounter := 0),
            timerActive := true)
  }

  function StopSpec(m: Machine): Machine {
    if !m.state.isMonitoring then m
    else m.(state := m.state.(isMonitoring := false), timerActive := false)
  }

  function UpdateConfigSpec(m: Machine, cfg: Config, now: int): Machine {
    if m.state.isMonitoring then StartSpec(StopSpec(m).(config := cfg), now)
    else m.(config := cfg)
  }

  function StartProcessingSpec(m: Machine, entry: Entry, answer: EntryLookup, send: SendResult, now: int): Machine {
    var m1 := m.(state := m.state.(currentEntry := Some(entry), entryProcessingStartTime := now));
    if CheckEntryProcessingStatus(answer) then Emit(m1, ChatCompleted)
    else if send.SendFailed? then Emit(m1, ChatError(SendErrorPrefix + send.error))
    else StartSpec(m1, now)
  }

  function SendContinueSpec(m: Machine, sendOk: bool, now: int): Machine {
    if sendOk then m.(state := m.state.(lastChangeTime := now, lastProgressTime := now), sent := m.sent + [ContinuePrompt])
    else m
  }

  function AnalysisSpec(m: Machine, transcript: Option<Json>, saveTranscript: Option<Json>, sendOk: bool, now: int): Machine {
    var status := AnalyzeChatStatus(transcript);
    if status.None? then m
    else
      var m1 := m.(state := m.state.(lastProgressTime := now));
      if status.value == Canceled then Emit(StopSpec(m1), ChatError(CanceledMessage))
      else if status.value == Completed then
        if DetectSaveOperation(saveTranscript) then Emit(StopSpec(m1), ChatCompleted)
        else SendContinueSpec(m1, sendOk, now)
      else m1.(state := m1.state.(lastChangeTime := now))
  }

  function TickSpec(m: Machine, answer: EntryLookup, transcript: Option<Json>, saveTranscript: Option<Json>,
                    sendOk: bool, now: int): Machine {
    if !m.state.isMonitoring then m
    else if EntryCheckEnabled(m) then
      var c := m.state.statusCheckCounter + 1;
      if c >= StatusCheckInterval then
        var m1 := m.(state := m.state.(statusCheckCounter := 0));
        if CheckEntryProcessingStatus(answer) then Emit(StopSpec(m1), ChatCompleted)
        else AnalysisSpec(m1, transcript, saveTranscript, sendOk, now)
      else AnalysisSpec(m.(state := m.state.(statusCheckCounter := c)), transcript, saveTranscript, sendOk, now)
    else AnalysisSpec(m, transcript, saveTranscript, sendOk, now)
  }

  function TimeoutSpec(m: Machine, answer: EntryLookup, now: int): Machine {
    if !ShouldTriggerTimeout(m.state.lastChangeTime, m.config.pauseThreshold, m.state.summarizationDetected, now) then m
    else if EntryCheckEnabled(m) && !CheckEntryProcessingStatus(answer) then
      if IsMaxWaitTimeExceeded(m.state.entryProcessingStartTime, MaxWait(m.config), now)
      then Emit(StopSpec(m), ChatError(MaxWaitMessage(m.state.currentEntry.value.rowNumber)))
      else m.(state := m.state.(lastChangeTime := now, summarizationDetected := false))
    else Emit(StopSpec(m), ChatCompleted)
  }

  predicate MentionsSummarization(content: string) {
    Contains(content, SummaryMarkerEn) || Contains(content, SummaryMarkerRu)
  }

  function MarkdownSpec(m: Machine, transcript: Option<string>, answer: EntryLookup, now: int): Machine {
    if transcript.None? then m
    else if transcript != m.state.lastChatContent then
      m.(state := m.state.(lastChatContent := transcript, lastChangeTime := now, lastProgressTime := now,
                           summarizationDetected := MentionsSummarization(transcript.value)))
    else TimeoutSpec(m, answer, now)
  }

  class ChatMonitor {
    var state: MonitorState
    var config: Config
    var timerActive: bool
    var signals: seq<Signal>
    var sent: seq<string>

    ghost function Snapshot(): Machine
      reads this
    {
      Machine(state, config, timerActive, signals, sent)
    }

    ghost predicate Valid()
      reads this
    {
      ValidMachine(Snapshot())
    }

    constructor(cfg: Config, now: int)
      ensures Valid()
      ensures Snapshot() == Machine(InitialState(now), cfg, false, [], [])
    {
      state := InitialState(now);
      config := cfg;
      timerActive := false;
      signals := [];
      sent := [];
    }

    method Start(now: int)
      requires Valid()
      modifies this
      ensures Valid()
      ensures Snapshot() == StartSpec(old(Snapshot()), now)
    {
      if state.isMonitoring {
        return;
      }
      state := state.(isMonitoring := true, lastChangeTime := now, lastProgressTime := now,
                      summarizationDetected := false, statusCheckCounter := 0);
      timerActive := true;
    }

    method Stop()
      requires Valid()
      modifies this
      ensures Valid()
      ensures Snapshot() == StopSpec(old(Snapshot()))
    {
      if !state.isMonitoring {
        return;
      }
      state := state.(isMonitoring := false);
      timerActive := false;
    }

    method UpdateConfig(cfg: Config, now: int)
      requires Valid()
      modifies this
      ensures Valid()
      ensures Snapshot() == UpdateConfigSpec(old(Snapshot()), cfg, now)
    {
      var wasMonitoring := state.isMonitoring;
      if wasMonitoring {
        Stop();
      }
      config := cfg;
      if wasMonitoring {
        Start(now);
      }
    }

    method StartProcessingEntry(entry: Entry, answer: EntryLookup, send: SendResult, now: int)
      requires Valid()
      modifies this
      ensures Valid()
      ensures Snapshot() == StartProcessingSpec(old(Snapshot()), entry, answer, send, now)
    {
      state := state.(currentEntry := Some(entry), entryProcessingStartTime := now);
      if CheckEntryProcessingStatus(answer) {
        signals := signals + [ChatCompleted];
        return;
      }
      if send.SendFailed? {
        signals := signals + [ChatError(SendErrorPrefix + send.error)];
        return;
      }
      Start(now);
    }

    /** `checkChatChanges`, the body of the polling timer. */
    method Tick(answer: EntryLookup, transcript: Option<Json>, saveTranscript: Option<Json>, sendOk: bool, now: int)
      requires Valid()
      modifies this
      ensures Valid()
      ensures Snapshot() == TickSpec(old(Snapshot()), answer, transcript, saveTranscript, sendOk, now)
    {
      if !state.isMonitoring {
        return;
      }
      ghost var m0 := Snapshot();
      TickUnfolds(m0, answer, transcript, saveTranscript, sendOk, now);
      if state.currentEntry.Some? && config.enableEntryStatusCheck != Some(false) {
        state := state.(statusCheckCounter := state.statusCheckCounter + 1);
        if state.statusCheckCounter >= StatusCheckInterval {
          state := state.(statusCheckCounter := 0);
          if CheckEntryProcessingStatus(answer) {
            assert Snapshot() == m0.(state := m0.state.(statusCheckCounter := 0));
            Stop();
            signals := signals + [ChatCompleted];
            return;
          }
        }
      }
      assert Snapshot() == BeforeAnalysis(m0);
      HandleChatAnalysis(transcript, saveTranscript, sendOk, now);
    }

    method HandleChatAnalysis(transcript: Option<Json>, saveTranscript: Option<Json>, sendOk: bool, now: int)
      requires ValidMachine(Snapshot().(state := state.(statusCheckCounter := 0)))
      modifies this
      ensures ValidMachine(Snapshot().(state := state.(statusCheckCounter := 0)))
      ensures state.statusCheckCounter == old(state.statusCheckCounter)
      ensures Snapshot() == AnalysisSpec(old(Snapshot()), transcript, saveTranscript, sendOk, now)
    {
      var status := AnalyzeChatStatus(transcript);
      if status.None? {
        return;
      }
      state := state.(lastProgressTime := now);
      match status.value {
        case Canceled =>
          if state.isMonitoring {
            state := state.(isMonitoring := false);
            timerActive := false;
          }
          signals := signals + [ChatError(CanceledMessage)];
        case Completed =>
          if DetectSaveOperation(saveTranscript) {
            if state.isMonitoring {
              state := state.(isMonitoring := false);
              timerActive := false;
            }
            signals := signals + [ChatCompleted];
          } else {
            SendContinueMessage(sendOk, now);
          }
        case _ =>
          state := state.(lastChangeTime := now);
      }
    }

    method SendContinueMessage(sendOk: bool, now: int)
      modifies this
      ensures Snapshot() == SendContinueSpec(old(Snapshot()), sendOk, now)
    {
      if sendOk {
        sent := sent + [ContinuePrompt];
        state := state.(lastChangeTime := now, lastProgressTime := now);
      }
    }

    /** `checkChatChangesMarkdown`, the Markdown fallback. Its only call
        follows an unconditional return in `checkChatChanges`, so no tick
        reaches it; it is modelled as a step of its own. */
    method CheckChatChangesMarkdown(transcript: Option<string>, answer: EntryLookup, now: int)
      requires Valid()
      modifies this
      ensures Valid()
      ensures Snapshot() == MarkdownSpec(old(Snapshot()), transcript, answer, now)
    {
      if transcript.None? {
        return;
      }
      if transcript != state.lastChatContent {
        state := state.(lastChatContent := transcript, lastChangeTime := now, lastProgressTime := now,
                        summarizationDetected := MentionsSummarization(transcript.value));
      } else {
        HandleChatTimeout(answer, now);
      }
    }

    method HandleChatTimeout(answer: EntryLookup, now: int)
      requires Valid()
      modifies this
      ensures Valid()
      ensures Snapshot() == TimeoutSpec(old(Snapshot()), answer, now)
    {
      if !ShouldTriggerTimeout(state.lastChangeTime, config.pauseThreshold, state.summarizationDetected, now) {
        return;
      }
      if state.currentEntry.Some? && config.enableEntryStatusCheck != Some(false) {
        if !CheckEntryProcessingStatus(answer) {
          var maxWaitTime := MaxWait(config);
          if IsMaxWaitTimeExceeded(state.entryProcessingStartTime, maxWaitTime, now) {
            HandleMaxWaitTimeExceeded();
          } else {
            HandleContinueWaiting(now);
          }
          return;
        }
      }
      Stop();
      signals := signals + [ChatCompleted];
    }

    method HandleMaxWaitTimeExceeded()
      requires Valid() && state.currentEntry.Some?
      modifies this
      ensures Valid()
      ensures Snapshot() == Emit(StopSpec(old(Snapshot())), ChatError(MaxWaitMessage(old(state.currentEntry.value.rowNumber))))
    {
      var message := MaxWaitMessage(state.currentEntry.value.rowNumber);
      Stop();
      signals := signals + [ChatError(message)];
    }

    /** Gives the chat one more pause period and forgets the summarisation. */
    method HandleContinueWaiting(now: int)
      requires Valid()
      modifies this
      ensures Valid()
      ensures Snapshot() == old(Snapshot()).(state := old(state).(lastChangeTime := now, summarizationDetected := false))
    {
      state := state.(lastChangeTime := now, summarizationDetected := false);
    }

    method IsActive() returns (active: bool)
      ensures active == state.isMonitoring
    {
      active := state.isMonitoring;
    }

    method GetCurrentEntry() returns (entry: Option<Entry>)
      ensures entry == state.currentEntry
    {
      entry := state.currentEntry;
    }

    method GetStatus(now: int) returns (text: string)
      ensures text == StatusLine(state, now)
    {
      text := StatusLine(state, now);
    }

    method Dispose()
      requires Valid()
      modifies this
      ensures Valid()
      ensures Snapshot() == StopSpec(old(Snapshot()))
    {
      Stop();
    }
  }

  /** The current entry is named in the status: its id is non-empty and its
      row number is not 0. */
  predicate ShowsEntryRow(s: MonitorState) {
    s.currentEntry.Some? && s.currentEntry.value.id != "" && s.currentEntry.value.rowNumber != 0
  }

  /** `getStatus`: the status message followed by the chat status label. */
  function StatusLine(s: MonitorState, now: int): (text: string)
    ensures !s.isMonitoring ==> text == "Остановлен | Статус чата: unknown"
    ensures s.isMonitoring ==> |text| > 9 && text[..9] == "Активен ("
    ensures s.isMonitoring && ShowsEntryRow(s) ==>
      text == ActiveMessage(s.lastChangeTime, now) + " - запись " + IntToString(s.currentEntry.value.rowNumber)
        + " | Статус чата: unknown"
    ensures s.isMonitoring && !ShowsEntryRow(s) ==>
      text == ActiveMessage(s.lastChangeTime, now) + " | Статус чата: unknown"
  {
    var id := if s.currentEntry.Some? then Some(s.currentEntry.value.id) else None;
    var row := if s.currentEntry.Some? then Some(s.currentEntry.value.rowNumber) else None;
    var suffix := " | Статус чата: " + ChatStatusLabel;
    assert suffix == " | Статус чата: unknown";
    assert NamesRow(id, row) <==> ShowsEntryRow(s);
    CreateStatusMessage(s.isMonitoring, s.lastChangeTime, id, row, now) + suffix
  }

  /** Stopping twice is stopping once, and a stopped engine has no timer. */
  lemma StopIdempotent(m: Machine)
    requires ValidMachine(m)
    ensures StopSpec(StopSpec(m)) == StopSpec(m)
    ensures !StopSpec(m).state.isMonitoring && !StopSpec(m).timerActive
  {
  }

  /** Starting a running engine changes nothing; starting a stopped one
      installs the timer and opens a fresh pause period. */
  lemma StartIdempotent(m: Machine, now: int, later: int)
    requires ValidMachine(m)
    ensures StartSpec(StartSpec(m, now), later) == StartSpec(m, now)
    ensures ValidMachine(StartSpec(m, now)) && StartSpec(m, now).state.isMonitoring
  {
  }

  /** Replacing the configuration keeps the engine running or stopped as it
      was; a running engine restarts its pause period under the new
      configuration. */
  lemma UpdateConfigKeepsMonitoring(m: Machine, cfg: Config, now: int)
    requires ValidMachine(m)
    ensures var r := UpdateConfigSpec(m, cfg, now);
      && r.config == cfg && ValidMachine(r)
      && r.state.isMonitoring == m.state.isMonitoring
      && r.signals == m.signals && r.sent == m.sent
      && (m.state.isMonitoring ==> r.state.lastChangeTime == now && r.state.statusCheckCounter == 0)
  {
  }

  /** The counter after `k` counted ticks from zero. */
  function CounterAfter(k: nat): nat {
    if k == 0 then 0 else NextCounter(CounterAfter(k - 1))
  }

  /** The counter cycles through 0, 1, 2, so the entry back-end is asked on
      the third counted tick, the sixth, and so on. */
  lemma {:induction false} CounterAfterTicks(k: nat)
    ensures CounterAfter(k) == k % StatusCheckInterval
    ensures QueriesOracle(CounterAfter(k)) <==> (k + 1) % StatusCheckInterval == 0
  {
    if k > 0 {
      CounterAfterTicks(k - 1);
    }
  }

  /** What one analysis step can do to the timer, the counter and the
      effects. */
  lemma AnalysisShape(m: Machine, transcript: Option<Json>, saveTranscript: Option<Json>, sendOk: bool, now: int)
    requires m.timerActive == m.state.isMonitoring
    ensures var r := AnalysisSpec(m, transcript, saveTranscript, sendOk, now);
      && r.timerActive == r.state.isMonitoring
      && r.state.statusCheckCounter == m.state.statusCheckCounter
      && m.signals <= r.signals && |r.signals| <= |m.signals| + 1
      && (|r.signals| > |m.signals| ==> !r.state.isMonitoring)
      && (r.sent != m.sent ==> r.state.isMonitoring == m.state.isMonitoring && r.sent == m.sent + [ContinuePrompt])
  {
  }

  /** The machine a tick hands to the analysis step when the back-end does
      not end it first. */
  function BeforeAnalysis(m: Machine): Machine {
    if EntryCheckEnabled(m) then m.(state := m.state.(statusCheckCounter := NextCounter(m.state.statusCheckCounter)))
    else m
  }

  lemma {:induction false} TickUnfolds(m: Machine, answer: EntryLookup, transcript: Option<Json>,
                                       saveTranscript: Option<Json>, sendOk: bool, now: int)
    requires m.state.isMonitoring
    ensures !NoBackendStop(m, answer) ==>
      TickSpec(m, answer, transcript, saveTranscript, sendOk, now)
        == Emit(StopSpec(m.(state := m.state.(statusCheckCounter := 0))), ChatCompleted)
    ensures NoBackendStop(m, answer) ==>
      TickSpec(m, answer, transcript, saveTranscript, sendOk, now)
        == AnalysisSpec(BeforeAnalysis(m), transcript, saveTranscript, sendOk, now)
  {
  }

  /** A tick leaves a valid engine valid. */
  lemma TickKeepsValid(m: Machine, answer: EntryLookup, transcript: Option<Json>, saveTranscript: Option<Json>,
                       sendOk: bool, now: int)
    requires ValidMachine(m)
    ensures ValidMachine(TickSpec(m, answer, transcript, saveTranscript, sendOk, now))
  {
    if m.state.isMonitoring {
      TickUnfolds(m, answer, transcript, saveTranscript, sendOk, now);
      if NoBackendStop(m, answer) {
        AnalysisShape(BeforeAnalysis(m), transcript, saveTranscript, sendOk, now);
      }
    }
  }

  /** One tick fires at most one callback, and a callback always comes with
      stopping the engine; a nudge leaves it running. */
  lemma TickSignalsOnlyWhenStopping(m: Machine, answer: EntryLookup, transcript: Option<Json>,
                                    saveTranscript: Option<Json>, sendOk: bool, now: int)
    requires ValidMachine(m)
    ensures var r := TickSpec(m, answer, transcript, saveTranscript, sendOk, now);
      && m.signals <= r.signals && |r.signals| <= |m.signals| + 1
      && (|r.signals| > |m.signals| ==> !r.state.isMonitoring && !r.timerActive)
      && (r.sent != m.sent ==> r.state.isMonitoring && r.sent == m.sent + [ContinuePrompt])
  {
    if m.state.isMonitoring {
      TickUnfolds(m, answer, transcript, saveTranscript, sendOk, now);
      if NoBackendStop(m, answer) {
        AnalysisShape(BeforeAnalysis(m), transcript, saveTranscript, sendOk, now);
      }
    }
  }

  /** While the entry check is on, every tick advances the counter, unless
      the tick ends with the back-end reporting the entry processed. */
  lemma TickAdvancesCounter(m: Machine, answer: EntryLookup, transcript: Option<Json>,
                            saveTranscript: Option<Json>, sendOk: bool, now: int)
    requires ValidMachine(m) && m.state.isMonitoring && EntryCheckEnabled(m)
    ensures var r := TickSpec(m, answer, transcript, saveTranscript, sendOk, now);
      r.state.statusCheckCounter == NextCounter(m.state.statusCheckCounter)
    ensures QueriesOracle(m.state.statusCheckCounter) && CheckEntryProcessingStatus(answer) ==>
      TickSpec(m, answer, transcript, saveTranscript, sendOk, now)
        == Emit(StopSpec(m.(state := m.state.(statusCheckCounter := 0))), ChatCompleted)
  {
  }

  /** The back-end is consulted only on counted ticks whose counter reaches
      the interval: on any other tick its answer makes no difference. */
  lemma TickIgnoresBackendBetweenChecks(m: Machine, a1: EntryLookup, a2: EntryLookup, transcript: Option<Json>,
                                        saveTranscript: Option<Json>, sendOk: bool, now: int)
    requires !EntryCheckEnabled(m) || !QueriesOracle(m.state.statusCheckCounter)
    ensures TickSpec(m, a1, transcript, saveTranscript, sendOk, now)
         == TickSpec(m, a2, transcript, saveTranscript, sendOk, now)
  {
  }

  /** The status check does not fire on this tick. */
  predicate NoBackendStop(m: Machine, answer: EntryLookup) {
    !EntryCheckEnabled(m) || !QueriesOracle(m.state.statusCheckCounter) || !CheckEntryProcessingStatus(answer)
  }

  /** A transcript whose last request the user canceled stops the engine with
      the cancellation error, whatever the earlier requests say. */
  lemma CanceledTranscriptStops(m: Machine, answer: EntryLookup, chat: Json, saveTranscript: Option<Json>,
                                sendOk: bool, now: int)
    requires ValidMachine(m) && m.state.isMonitoring && NoBackendStop(m, answer)
    requires HasRequests(chat) && LastRequest(chat).JObj? && CanceledFlag(LastRequest(chat))
    ensures var r := TickSpec(m, answer, Some(chat), saveTranscript, sendOk, now);
      && !r.state.isMonitoring && !r.timerActive
      && r.signals == m.signals + [ChatError(CanceledMessage)]
      && r.state.lastProgressTime == now
  {
    assert AnalyzeChatStatus(Some(chat)) == Some(Canceled);
  }

  /** A completed dialog with a successful save finishes the entry. */
  lemma SavedCompletionFinishes(m: Machine, answer: EntryLookup, transcript: Option<Json>,
                                saveTranscript: Option<Json>, sendOk: bool, now: int)
    requires ValidMachine(m) && m.state.isMonitoring && NoBackendStop(m, answer)
    requires AnalyzeChatStatus(transcript) == Some(Completed) && DetectSaveOperation(saveTranscript)
    ensures var r := TickSpec(m, answer, transcript, saveTranscript, sendOk, now);
      && !r.state.isMonitoring && r.signals == m.signals + [ChatCompleted] && r.sent == m.sent
  {
  }

  /** A completed dialog without a save is nudged and keeps being watched;
      the nudge opens a new pause period only if it was delivered. */
  lemma UnsavedCompletionNudges(m: Machine, answer: EntryLookup, transcript: Option<Json>,
                                saveTranscript: Option<Json>, sendOk: bool, now: int)
    requires ValidMachine(m) && m.state.isMonitoring && NoBackendStop(m, answer)
    requires AnalyzeChatStatus(transcript) == Some(Completed) && !DetectSaveOperation(saveTranscript)
    ensures var r := TickSpec(m, answer, transcript, saveTranscript, sendOk, now);
      && r.state.isMonitoring && r.signals == m.signals
      && r.sent == (if sendOk then m.sent + [ContinuePrompt] else m.sent)
      && r.state.lastProgressTime == now
      && r.state.lastChangeTime == (if sendOk then now else m.state.lastChangeTime)
  {
  }

  /** Any other status refreshes both clocks; no analysis changes nothing. */
  lemma OtherStatusRefreshes(m: Machine, answer: EntryLookup, transcript: Option<Json>,
                             saveTranscript: Option<Json>, sendOk: bool, now: int)
    requires ValidMachine(m) && m.state.isMonitoring && NoBackendStop(m, answer)
    ensures var status := AnalyzeChatStatus(transcript);
      var r := TickSpec(m, answer, transcript, saveTranscript, sendOk, now);
      && (status.Some? && status.value != Canceled && status.value != Completed ==>
            r.state.isMonitoring && r.signals == m.signals && r.sent == m.sent
            && r.state.lastChangeTime == now && r.state.lastProgressTime == now)
      && (status.None? ==>
            r.state.lastChangeTime == m.state.lastChangeTime && r.signals == m.signals
            && r.state.isMonitoring && r.sent == m.sent)
  {
  }

  /** The timeout step: nothing before the pause threshold; past it, an
      entry still unprocessed either exhausts the maximum wait (error) or
      gets another pause period; in every other case the entry is finished. */
  lemma TimeoutOutcomes(m: Machine, answer: EntryLookup, now: int)
    requires ValidMachine(m)
    ensures var r := TimeoutSpec(m, answer, now);
      var fire := ShouldTriggerTimeout(m.state.lastChangeTime, m.config.pauseThreshold, m.state.summarizationDetected, now);
      var waiting := EntryCheckEnabled(m) && !CheckEntryProcessingStatus(answer);
      var exceeded := IsMaxWaitTimeExceeded(m.state.entryProcessingStartTime, MaxWait(m.config), now);
      && ValidMachine(r)
      && (!fire ==> r == m)
      && (fire && waiting && exceeded ==>
            !r.state.isMonitoring && r.signals == m.signals + [ChatError(MaxWaitMessage(m.state.currentEntry.value.rowNumber))])
      && (fire && waiting && !exceeded ==>
            r.state.isMonitoring == m.state.isMonitoring && r.signals == m.signals
            && r.state.lastChangeTime == now && !r.state.summarizationDetected)
      && (fire && !waiting ==> !r.state.isMonitoring && r.signals == m.signals + [ChatCompleted])
  {
  }

  /** Without a configured maximum, an unprocessed entry is given up after
      600 seconds of processing. */
  lemma DefaultMaxWait(m: Machine, answer: EntryLookup, now: int)
    requires m.config.maxWaitTime.None? || m.config.maxWaitTime == Some(0)
    requires EntryCheckEnabled(m) && !CheckEntryProcessingStatus(answer)
    requires ShouldTriggerTimeout(m.state.lastChangeTime, m.config.pauseThreshold, m.state.summarizationDetected, now)
    requires now - m.state.entryProcessingStartTime >= 600000
    ensures TimeoutSpec(m, answer, now).signals == m.signals + [ChatError(MaxWaitMessage(m.state.currentEntry.value.rowNumber))]
  {
  }

  /** The Markdown fallback: new content counts as a change and sets the
      summarisation flag from the two markers; unchanged content goes to the
      timeout step; a failed export changes nothing. */
  lemma MarkdownOutcomes(m: Machine, content: string, answer: EntryLookup, now: int)
    ensures MarkdownSpec(m, None, answer, now) == m
    ensures Some(content) != m.state.lastChatContent ==>
      var r := MarkdownSpec(m, Some(content), answer, now);
      && r.state.lastChatContent == Some(content) && r.state.lastChangeTime == now
      && r.state.summarizationDetected == (Contains(content, SummaryMarkerEn) || Contains(content, SummaryMarkerRu))
      && r.signals == m.signals && r.state.isMonitoring == m.state.isMonitoring
    ensures Some(content) == m.state.lastChatContent ==>
      MarkdownSpec(m, Some(content), answer, now) == TimeoutSpec(m, answer, now)
  {
  }

  /** Taking an entry: an already processed entry finishes at once without
      starting; a failed send reports the error without starting; otherwise
      the engine starts. The entry and its start time are recorded in every
      case. */
  lemma StartProcessingOutcomes(m: Machine, entry: Entry, answer: EntryLookup, send: SendResult, now: int)
    requires ValidMachine(m)
    ensures var r := StartProcessingSpec(m, entry, answer, send, now);
      && ValidMachine(r)
      && r.state.currentEntry == Some(entry) && r.state.entryProcessingStartTime == now
      && (CheckEntryProcessingStatus(answer) ==>
            r.signals == m.signals + [ChatCompleted] && r.state.isMonitoring == m.state.isMonitoring)
      && (!CheckEntryProcessingStatus(answer) && send.SendFailed? ==>
            r.signals == m.signals + [ChatError(SendErrorPrefix + send.error)] && r.state.isMonitoring == m.state.isMonitoring)
      && (!CheckEntryProcessingStatus(answer) && send.Sent? ==> r.signals == m.signals && r.state.isMonitoring)
  {
  }
}
