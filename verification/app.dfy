/**
 The application controller (App.tsx): the screen state, one pure transition
 per handler, the render guards that decide which controls exist, and the
 asynchronous completions as separate events.

 `handleAnalysis` is split in two: `StartAnalysis` is what runs before its
 `await`, `FinishAnalysis` what runs once the analysis call settles. The side
 upload is a third event whose settlement leaves the state alone.
 */
module App {
  import opened Types
  import Analysis
  import Upload

  /** The only error text the controller ever shows. */
  const AnalysisFailedMessage: string :=
    "Failed to analyze image. Please ensure the API key is valid and the image is clear."

  /** The controller's state: one field per `useState`. */
  datatype State = State(
    image: Option<UploadedImage>,
    result: Option<AnalysisResult>,
    loading: bool,
    error: Option<string>,
    language: Language,
    isLangOpen: bool)

  const Initial: State := State(None, None, false, None, En, false)

  /** The JSON body of the side upload to `upload.php`. */
  datatype StoragePost = StoragePost(image: Option<string>, mimeType: string)

  /** The arguments of the awaited `analyzeImage` call. */
  datatype AnalysisCall = AnalysisCall(base64: Option<string>, mimeType: string, language: Language)

  /** What the synchronous part of `handleAnalysis` leaves behind: the new
      state and the two requests it has issued, if any. */
  datatype Start = Start(state: State, upload: Option<StoragePost>, call: Option<AnalysisCall>)

  /** How the side upload's `fetch` settles. `fetch` resolves on every HTTP
      status, error statuses included; it rejects only when no response arrives. */
  datatype FetchOutcome = FetchResolved(status: int) | FetchRejected(error: JsError)

  // ---------------------------------------------------------------------------
  // Handlers
  // ---------------------------------------------------------------------------

  /** `handleAnalysis` up to its `await`: without an image nothing happens;
      otherwise loading starts, the old error is cleared, and the side upload
      and the analysis call are issued for the current image and language. */
  function StartAnalysis(s: State): (r: Start)
    ensures s.image.None? ==> r == Start(s, None, None)
    ensures s.image.Some? ==>
              && r.state.loading && r.state.error.None?
              && r.state.image == s.image && r.state.result == s.result
              && r.state.language == s.language && r.state.isLangOpen == s.isLangOpen
    ensures s.image.Some? ==>
              && r.upload == Some(StoragePost(s.image.value.base64, s.image.value.mimeType))
              && r.call == Some(AnalysisCall(s.image.value.base64, s.image.value.mimeType, s.language))
  {
    match s.image
    case None => Start(s, None, None)
    case Some(img) =>
      Start(s.(loading := true, error := None),
            Some(StoragePost(img.base64, img.mimeType)),
            Some(AnalysisCall(img.base64, img.mimeType, s.language)))
  }

  /** `handleAnalysis` after its `await`: a result is stored exactly as
      returned, any failure becomes the one generic message, and loading ends
      either way. It applies to whatever the state is when the call settles. */
  function FinishAnalysis(s: State, outcome: Result<AnalysisResult, JsError>): (t: State)
    ensures !t.loading
    ensures outcome.Success? ==> t.result == Some(outcome.value) && t.error == s.error
    ensures outcome.Failure? ==> t.error == Some(AnalysisFailedMessage) && t.result == s.result
    ensures t.image == s.image && t.language == s.language && t.isLangOpen == s.isLangOpen
  {
    match outcome
    case Success(data) => s.(result := Some(data), loading := false)
    case Failure(_) => s.(error := Some(AnalysisFailedMessage), loading := false)
  }

  /** `uploadToStorage`'s catch: the error it logs, if any; nothing else. */
  function StorageWarning(outcome: FetchOutcome): (warning: Option<JsError>)
    ensures warning.Some? <==> outcome.FetchRejected?
    ensures warning.Some? ==> warning.value == outcome.error
  {
    match outcome
    case FetchResolved(_) => None
    case FetchRejected(e) => Some(e)
  }

  /** `reset` (also reached through `goHome`): image, result and error are
      cleared together; loading and the language are kept. */
  function Reset(s: State): (t: State)
    ensures t.image.None? && t.result.None? && t.error.None?
    ensures t.loading == s.loading && t.language == s.language && t.isLangOpen == s.isLangOpen
  {
    s.(image := None, result := None, error := None)
  }

  /** `setImage(null)`, behind both the corner button and the cancel button. */
  function DiscardImage(s: State): (t: State)
    ensures t.image.None?
    ensures t.result == s.result && t.loading == s.loading && t.error == s.error
    ensures t.language == s.language && t.isLangOpen == s.isLangOpen
  {
    s.(image := None)
  }

  /** The upload widget's callback `setImage(image)`. */
  function SelectImage(s: State, image: UploadedImage): (t: State)
    ensures t.image == Some(image)
    ensures t.result == s.result && t.loading == s.loading && t.error == s.error
    ensures t.language == s.language && t.isLangOpen == s.isLangOpen
  {
    s.(image := Some(image))
  }

  /** "Try again": `setError(null)` and nothing else. */
  function TryAgain(s: State): (t: State)
    ensures t.error.None?
    ensures t.image == s.image && t.result == s.result && t.loading == s.loading
    ensures t.language == s.language && t.isLangOpen == s.isLangOpen
  {
    s.(error := None)
  }

  /** `handleLanguageChange`: the new language, and the menu closes. */
  function ChangeLanguage(s: State, language: Language): (t: State)
    ensures t.language == language && !t.isLangOpen
    ensures t.image == s.image && t.result == s.result && t.loading == s.loading && t.error == s.error
  {
    s.(language := language, isLangOpen := false)
  }

  /** The language button flips the menu; the backdrop only closes it. */
  function SetLanguageMenu(s: State, open: bool): (t: State)
    ensures t.isLangOpen == open
    ensures t.image == s.image && t.result == s.result && t.loading == s.loading
    ensures t.error == s.error && t.language == s.language
  {
    s.(isLangOpen := open)
  }

  // ---------------------------------------------------------------------------
  // Render guards
  // ---------------------------------------------------------------------------

  /** The scanning animation. */
  predicate LoadingShown(s: State) { s.loading }

  /** The result dashboard with its "analyze another" buttons. */
  predicate ResultShown(s: State) { s.result.Some? }

  /** The hero section: no result and not loading. The error plays no part. */
  function HeroShown(s: State): (shown: bool)
    ensures shown ==> !LoadingShown(s) && !ResultShown(s)
    ensures !shown ==> LoadingShown(s) || ResultShown(s)
  {
    s.result.None? && !s.loading
  }

  /** The upload widget, inside the hero, when there is no image. */
  function UploadShown(s: State): (shown: bool)
    ensures shown ==> HeroShown(s) && s.image.None?
    ensures HeroShown(s) && s.image.None? ==> shown
  {
    HeroShown(s) && s.image.None?
  }

  /** The preview with its analyze, corner and cancel buttons, inside the hero:
      within the hero it is there exactly when the upload widget is not. */
  function PreviewShown(s: State): (shown: bool)
    ensures shown ==> s.image.Some?
    ensures HeroShown(s) ==> (shown <==> !UploadShown(s))
    ensures !HeroShown(s) ==> !shown && !UploadShown(s)
  {
    HeroShown(s) && s.image.Some?
  }

  /** The error panel with "try again": rendered when `error` is truthy, in
      JavaScript's sense that the empty string is not. */
  function ErrorShown(s: State): (shown: bool)
    ensures shown <==> !Analysis.Falsy(s.error)
  {
    s.error.Some? && s.error.value != ""
  }

  /** Everything that can happen to the controller. */
  datatype Event =
    | Analyze                                               // the analyze button
    | AnalysisSettled(outcome: Result<AnalysisResult, JsError>)
    | StorageSettled(fetched: FetchOutcome)
    | AnalyzeAnother                                        // the dashboard's reset buttons
    | GoHome                                                // the logo, and the mobile home button
    | FilesChosen(files: seq<Upload.File>)                  // a drop on the upload widget, or a pick
    | ReadEnded(file: Upload.File, read: Option<string>)    // a FileReader's `onloadend`
    | Discard                                               // the corner and cancel buttons
    | TryAgainPressed
    | ToggleLanguageMenu
    | CloseLanguageMenu                                     // the backdrop
    | LanguageChosen(language: Language)

  /** Whether the control behind a user event is on screen. Settlements and
      a reader's end are not controls: as far as the screen goes they are
      always possible, since the reader calls `setImage` even after the
      upload widget has gone. */
  function Enabled(s: State, e: Event): (enabled: bool)
    ensures enabled && (e.Analyze? || e.Discard?) ==> s.image.Some? && !s.loading && s.result.None?
    ensures enabled && e.FilesChosen? ==> s.image.None? && !s.loading && s.result.None?
    ensures enabled && e.AnalyzeAnother? ==> s.result.Some?
    ensures enabled && e.TryAgainPressed? ==> s.error.Some?
    ensures e.GoHome? || e.ToggleLanguageMenu? || e.ReadEnded? ==> enabled
  {
    match e
    case Analyze => PreviewShown(s)
    case AnalysisSettled(_) => true
    case StorageSettled(_) => true
    case AnalyzeAnother => ResultShown(s)
    case GoHome => true
    case FilesChosen(_) => UploadShown(s)
    case ReadEnded(_, _) => true
    case Discard => PreviewShown(s)
    case TryAgainPressed => ErrorShown(s)
    case ToggleLanguageMenu => true
    case CloseLanguageMenu => s.isLangOpen
    case LanguageChosen(_) => s.isLangOpen
  }

  /** The state after an event, whatever the screen shows. Each field has a
      short list of events that may change it. */
  function Step(s: State, e: Event): (t: State)
    ensures t.image != s.image ==> e.ReadEnded? || e.Discard? || e.AnalyzeAnother? || e.GoHome?
    ensures t.result != s.result ==> e.AnalysisSettled? || e.AnalyzeAnother? || e.GoHome?
    ensures t.loading != s.loading ==> e.Analyze? || e.AnalysisSettled?
    ensures t.error != s.error ==>
              e.Analyze? || e.AnalysisSettled? || e.TryAgainPressed? || e.AnalyzeAnother? || e.GoHome?
    ensures t.language != s.language ==> e.LanguageChosen?
    ensures t.isLangOpen != s.isLangOpen ==> e.ToggleLanguageMenu? || e.CloseLanguageMenu? || e.LanguageChosen?
    ensures e.FilesChosen? || e.StorageSettled? ==> t == s
  {
    match e
    case Analyze => StartAnalysis(s).state
    case AnalysisSettled(outcome) => FinishAnalysis(s, outcome)
    case StorageSettled(_) => s
    case AnalyzeAnother => Reset(s)
    case GoHome => Reset(s)
    case FilesChosen(_) => s                               // the notice, if any, changes nothing
    case ReadEnded(file, read) => Deliver(s, Upload.LoadEnd(file, read))
    case Discard => DiscardImage(s)
    case TryAgainPressed => TryAgain(s)
    case ToggleLanguageMenu => SetLanguageMenu(s, !s.isLangOpen)
    case CloseLanguageMenu => SetLanguageMenu(s, false)
    case LanguageChosen(language) => ChangeLanguage(s, language)
  }

  /** `goHome` is `reset`. */
  lemma GoHomeIsReset(s: State)
    ensures Step(s, GoHome) == Step(s, AnalyzeAnother)
    ensures Step(s, GoHome).image.None? && Step(s, GoHome).result.None? && Step(s, GoHome).error.None?
  {
  }

  /** The side upload's settlement, successful or not, never changes the state. */
  lemma StorageOutcomeIsIrrelevant(s: State, o1: FetchOutcome, o2: FetchOutcome)
    ensures Step(s, StorageSettled(o1)) == s
    ensures Step(s, StorageSettled(o1)) == Step(s, StorageSettled(o2))
  {
  }

  /** The language is orthogonal to the analysis: changing it touches neither
      a stored nor an in-flight result, and commutes with the call settling. */
  lemma LanguageIsOrthogonal(s: State, language: Language, outcome: Result<AnalysisResult, JsError>)
    ensures Step(s, LanguageChosen(language)).result == s.result
    ensures FinishAnalysis(ChangeLanguage(s, language), outcome) == ChangeLanguage(FinishAnalysis(s, outcome), language)
  {
  }

  // ---------------------------------------------------------------------------
  // Sessions: the state plus what is still in flight
  // ---------------------------------------------------------------------------

  /** The controller's state together with the number of analysis calls and
      side uploads that have been issued and have not settled yet, and the
      files whose reads have started and not ended. */
  datatype Session = Session(ui: State, analysesInFlight: nat, uploadsInFlight: nat,
                             pendingReads: multiset<Upload.File>)

  const InitialSession: Session := Session(Initial, 0, 0, multiset{})

  /** The reads a drop or a pick starts. */
  function StartedReads(files: seq<Upload.File>): multiset<Upload.File>
  {
    match Upload.ReadStarted(files)
    case Some(file) => multiset{file}
    case None => multiset{}
  }

  /** An event can happen: its control is on screen, or it settles something
      that is in flight. */
  predicate CanFire(ss: Session, e: Event)
  {
    match e
    case AnalysisSettled(_) => ss.analysesInFlight > 0
    case StorageSettled(_) => ss.uploadsInFlight > 0
    case ReadEnded(file, _) => file in ss.pendingReads
    case _ => Enabled(ss.ui, e)
  }

  function Fire(ss: Session, e: Event): Session
    requires CanFire(ss, e)
  {
    match e
    case Analyze =>
      var st := StartAnalysis(ss.ui);
      Session(st.state,
              ss.analysesInFlight + (if st.call.Some? then 1 else 0),
              ss.uploadsInFlight + (if st.upload.Some? then 1 else 0),
              ss.pendingReads)
    case AnalysisSettled(_) => ss.(ui := Step(ss.ui, e), analysesInFlight := ss.analysesInFlight - 1)
    case StorageSettled(_) => ss.(ui := Step(ss.ui, e), uploadsInFlight := ss.uploadsInFlight - 1)
    case FilesChosen(files) => ss.(ui := Step(ss.ui, e), pendingReads := ss.pendingReads + StartedReads(files))
    case ReadEnded(file, _) => ss.(ui := Step(ss.ui, e), pendingReads := ss.pendingReads - multiset{file})
    case _ => ss.(ui := Step(ss.ui, e))
  }

  /** A sequence of events; those that cannot happen at their turn (a control
      that is not rendered, a settlement with nothing in flight) are skipped. */
  function Run(ss: Session, events: seq<Event>): Session
    decreases |events|
  {
    if |events| == 0 then ss
    else Run(if CanFire(ss, events[0]) then Fire(ss, events[0]) else ss, events[1..])
  }

  /** What holds in every reachable session. */
  predicate Inv(ss: Session)
  {
    && ss.analysesInFlight == (if ss.ui.loading then 1 else 0)
    && (ss.ui.error.None? || ss.ui.error == Some(AnalysisFailedMessage))
    && (ss.ui.result.Some? ==> !ss.ui.loading)
    && (ss.ui.error.Some? ==> !ss.ui.loading)
    && !(ss.ui.result.Some? && ss.ui.error.Some?)
  }

  lemma InitialSatisfiesInv()
    ensures Inv(InitialSession)
  {
  }

  /** Every event that can happen keeps the invariant. */
  lemma FirePreservesInv(ss: Session, e: Event)
    requires Inv(ss) && CanFire(ss, e)
    ensures Inv(Fire(ss, e))
  {
  }

  /** Every session reached from the start satisfies the invariant. */
  lemma {:induction false} RunPreservesInv(ss: Session, events: seq<Event>)
    requires Inv(ss)
    ensures Inv(Run(ss, events))
    decreases |events|
  {
    if |events| > 0 {
      var next := if CanFire(ss, events[0]) then Fire(ss, events[0]) else ss;
      if CanFire(ss, events[0]) {
        FirePreservesInv(ss, events[0]);
      }
      RunPreservesInv(next, events[1..]);
    }
  }

  /** At most one analysis is ever in flight, and the analyze control is
      never on screen while one is. */
  lemma AtMostOneAnalysisInFlight(events: seq<Event>)
    ensures Run(InitialSession, events).analysesInFlight <= 1
    ensures Run(InitialSession, events).analysesInFlight == 1 ==> !CanFire(Run(InitialSession, events), Analyze)
  {
    InitialSatisfiesInv();
    RunPreservesInv(InitialSession, events);
  }

  /** In a reachable session the scanning animation, the dashboard and the
      error panel exclude one another, and the hero excludes the first two. */
  lemma ScreensExclusive(events: seq<Event>)
    ensures var s := Run(InitialSession, events).ui;
            && !(LoadingShown(s) && ResultShown(s))
            && !(LoadingShown(s) && ErrorShown(s))
            && !(ResultShown(s) && ErrorShown(s))
            && (HeroShown(s) ==> !LoadingShown(s) && !ResultShown(s))
  {
    InitialSatisfiesInv();
    RunPreservesInv(InitialSession, events);
  }

  /** After a failed analysis the preview and its analyze button stay on
      screen beside the error panel, because the hero's guard ignores
      `error`; "try again" then only removes the panel. */
  lemma ErrorKeepsPreview(ss: Session)
    requires Inv(ss) && ErrorShown(ss.ui) && ss.ui.image.Some?
    ensures CanFire(ss, Analyze) && PreviewShown(ss.ui)
    ensures var t := Fire(ss, TryAgainPressed).ui;
            !ErrorShown(t) && PreviewShown(t) && t.image == ss.ui.image
  {
  }

  /** Going home does not stop an analysis in flight: loading goes on, and a
      later success still lands on the dashboard, now without an image. */
  lemma ResultAfterGoHome(ss: Session, data: AnalysisResult)
    requires Inv(ss) && ss.analysesInFlight == 1
    ensures LoadingShown(Run(ss, [GoHome]).ui)
    ensures var t := Run(ss, [GoHome, AnalysisSettled(Success(data))]).ui;
            ResultShown(t) && t.result == Some(data) && t.image.None? && !t.loading
  {
    var e := AnalysisSettled(Success(data));
    var home := Fire(ss, GoHome);
    assert home.ui == Reset(ss.ui) && home.analysesInFlight == 1;
    assert Run(ss, [GoHome]) == Run(home, []);
    assert [GoHome, e][1..] == [e];
    assert Run(ss, [GoHome, e]) == Run(home, [e]);
    assert CanFire(home, e);
    assert [e][1..] == [];
    assert Run(home, [e]) == Run(Fire(home, e), []) == Fire(home, e);
  }

  /** Cancelling the preview brings the upload widget back. */
  lemma DiscardShowsUpload(s: State)
    requires PreviewShown(s)
    ensures UploadShown(Step(s, Discard))
  {
  }

  // ---------------------------------------------------------------------------
  // The pieces together
  // ---------------------------------------------------------------------------

  /** Feeds the upload widget's effects to the controller: the callback is
      `setImage`; the notice changes nothing. */
  function Deliver(s: State, effects: seq<Upload.Effect>): (t: State)
    ensures t.result == s.result && t.loading == s.loading && t.error == s.error
    ensures t.language == s.language && t.isLangOpen == s.isLangOpen
    ensures Upload.CallbackCount(effects) == 0 ==> t == s
    ensures |effects| > 0 && effects[|effects| - 1].ImageSelected? ==> t.image == Some(effects[|effects| - 1].image)
    decreases |effects|
  {
    if |effects| == 0 then s
    else
      var next := match effects[0]
        case ImageSelected(image) => SelectImage(s, image)
        case Alert(_) => s;
      Deliver(next, effects[1..])
  }

  /**
   A drop or pick on the upload widget followed by the end of its read does
   what the widget's handlers report: a non-image file, or an empty list,
   starts nothing and leaves the session as it was; an image file's read
   either fails and changes nothing, or makes its data URL the image. The
   files pending afterwards are those pending before.
   */
  lemma FileSelection(ss: Session, files: seq<Upload.File>, read: Upload.File -> Option<string>)
    requires UploadShown(ss.ui)
    ensures Upload.ReadStarted(files).None? ==>
              && Run(ss, [FilesChosen(files)]) == ss
              && Deliver(ss.ui, Upload.HandleFiles(files, read)) == ss.ui
    ensures Upload.ReadStarted(files).Some? ==>
              var f := files[0];
              var t := Run(ss, [FilesChosen(files), ReadEnded(f, read(f))]);
              && t.pendingReads == ss.pendingReads
              && t.ui == Deliver(ss.ui, Upload.HandleFiles(files, read))
              && (read(f).None? ==> t.ui == ss.ui)
              && (read(f).Some? ==>
                    t.ui == SelectImage(ss.ui, UploadedImage(Upload.Base64Field(read(f).value), f.mimeType, read(f).value)))
  {
    var chosen := FilesChosen(files);
    ChooseFiles(ss, files);
    if Upload.ReadStarted(files).Some? {
      var f := files[0];
      var ended := ReadEnded(f, read(f));
      var started := ss.(pendingReads := ss.pendingReads + multiset{f});
      RunFirst(ss, chosen, [ended]);
      RunFirst(started, ended, []);
      assert [chosen] + [ended] == [chosen, ended];
      assert started.pendingReads - multiset{f} == ss.pendingReads;
    }
  }

  /** A read that ends while an analysis runs still replaces the image: the
      reader's callback is App's own `setImage`, which outlives the upload
      widget, so the scanning screen then shows a different photo from the
      one being analysed. The invariant is kept. */
  lemma ReadEndingDuringAnalysis(ss: Session, file: Upload.File, dataUrl: string)
    requires Inv(ss) && ss.ui.loading && file in ss.pendingReads
    ensures var t := Fire(ss, ReadEnded(file, Some(dataUrl)));
            && Inv(t) && LoadingShown(t.ui) && t.analysesInFlight == 1
            && t.ui.image == Some(UploadedImage(Upload.Base64Field(dataUrl), file.mimeType, dataUrl))
  {
  }

  /** Running from an event that can happen is firing it, then running the rest. */
  lemma RunFirst(ss: Session, e: Event, rest: seq<Event>)
    requires CanFire(ss, e)
    ensures Run(ss, [e] + rest) == Run(Fire(ss, e), rest)
  {
    assert ([e] + rest)[1..] == rest;
  }

  /** Running two sequences one after the other is running their concatenation. */
  lemma {:induction false} RunAppend(ss: Session, xs: seq<Event>, ys: seq<Event>)
    ensures Run(ss, xs + ys) == Run(Run(ss, xs), ys)
    decreases |xs|
  {
    if |xs| > 0 {
      var next := if CanFire(ss, xs[0]) then Fire(ss, xs[0]) else ss;
      assert (xs + ys)[0] == xs[0];
      assert (xs + ys)[1..] == xs[1..] + ys;
      RunAppend(next, xs[1..], ys);
    } else {
      assert xs + ys == ys;
    }
  }

  /** A drop or pick on the upload widget changes nothing but the pending reads. */
  lemma ChooseFiles(ss: Session, files: seq<Upload.File>)
    requires UploadShown(ss.ui)
    ensures Fire(ss, FilesChosen(files)) == ss.(pendingReads := ss.pendingReads + StartedReads(files))
    ensures Run(ss, [FilesChosen(files)]) == ss.(pendingReads := ss.pendingReads + StartedReads(files))
  {
    RunFirst(ss, FilesChosen(files), []);
  }

  /** Two image files dropped one after the other, before either read has
      ended, leave two reads pending and the screen as it was. */
  lemma DropTwo(a: Upload.File, b: Upload.File)
    requires Upload.IsImageType(a.mimeType) && Upload.IsImageType(b.mimeType)
    ensures Run(InitialSession, [FilesChosen([a]), FilesChosen([b])]) == InitialSession.(pendingReads := multiset{a, b})
  {
    var s1 := InitialSession.(pendingReads := multiset{a});
    ChooseFiles(InitialSession, [a]);
    ChooseFiles(s1, [b]);
    RunAppend(InitialSession, [FilesChosen([a])], [FilesChosen([b])]);
    assert [FilesChosen([a])] + [FilesChosen([b])] == [FilesChosen([a]), FilesChosen([b])];
  }

  /** The first read ends and analyze is pressed: loading, with the second
      read still pending. */
  lemma LoadThenAnalyze(a: Upload.File, b: Upload.File, urlA: string)
    ensures var ss := Run(InitialSession.(pendingReads := multiset{a, b}), [ReadEnded(a, Some(urlA)), Analyze]);
            ss.ui.loading && ss.analysesInFlight == 1 && b in ss.pendingReads && Inv(ss)
  {
    var s2 := InitialSession.(pendingReads := multiset{a, b});
    var s3 := Fire(s2, ReadEnded(a, Some(urlA)));
    assert s3.ui.image.Some? && s3.ui == SelectImage(Initial, s3.ui.image.value);
    assert s3.pendingReads == multiset{b};
    RunFirst(s2, ReadEnded(a, Some(urlA)), [Analyze]);
    RunFirst(s3, Analyze, []);
  }

  /** Such a session is reachable: drop `a`, drop `b` before either read has
      ended, let `a`'s read end, press analyze, then let `b`'s read end. */
  lemma StaleReadDuringAnalysis(a: Upload.File, b: Upload.File, urlA: string, urlB: string)
    requires Upload.IsImageType(a.mimeType) && Upload.IsImageType(b.mimeType)
    ensures var ss := Run(InitialSession, [FilesChosen([a]), FilesChosen([b]), ReadEnded(a, Some(urlA)),
                                          Analyze, ReadEnded(b, Some(urlB))]);
            && ss.ui.loading && ss.analysesInFlight == 1
            && ss.ui.image == Some(UploadedImage(Upload.Base64Field(urlB), b.mimeType, urlB))
  {
    var drops := [FilesChosen([a]), FilesChosen([b])];
    var start := [ReadEnded(a, Some(urlA)), Analyze];
    var last := ReadEnded(b, Some(urlB));
    DropTwo(a, b);
    LoadThenAnalyze(a, b, urlA);
    var s4 := Run(InitialSession.(pendingReads := multiset{a, b}), start);
    ReadEndingDuringAnalysis(s4, b, urlB);
    RunFirst(s4, last, []);
    RunAppend(InitialSession, drops, start);
    RunAppend(InitialSession, drops + start, [last]);
    assert drops + start + [last] == [FilesChosen([a]), FilesChosen([b]), ReadEnded(a, Some(urlA)), Analyze, last];
  }

  /** One analysis with nothing in between: the call carries the image and
      the language of the moment it started, and its outcome alone decides
      between the stored result and the generic message. */
  lemma AnalysisEndToEnd(s: State, sdk: Analysis.Request -> Analysis.Reply,
                         parse: string -> Result<AnalysisResult, JsError>)
    requires s.image.Some?
    ensures var st := StartAnalysis(s);
            var call := st.call.value;
            var request := Analysis.BuildRequest(call.base64, call.mimeType, call.language);
            var reply := sdk(request);
            var outcome := Analysis.AnalyzeImage(call.base64, call.mimeType, call.language, sdk, parse);
            var t := FinishAnalysis(st.state, outcome);
            && request.image == Analysis.InlineData(s.image.value.mimeType, s.image.value.base64)
            && Analysis.Contains(request.prompt, Analysis.ResponseDirective(Analysis.LanguageName(s.language)))
            && !t.loading && t.image == s.image && t.language == s.language
            && (outcome.Success? ==> t.result == Some(outcome.value) && t.error.None?)
            && (outcome.Failure? ==> t.error == Some(AnalysisFailedMessage) && t.result == s.result)
            && (reply.Threw? ==> t.error == Some(AnalysisFailedMessage))
            && (reply.Responded? && !Analysis.Falsy(reply.text) && parse(reply.text.value).Success? ==>
                  t.result == Some(parse(reply.text.value).value) && t.error.None?)
  {
  }
}
