/** The application's records and enumerations (types.ts), as values. */
module Types {
  import opened Wrappers

  /** The interpersonal context of a message. */
  datatype Mode = Work | School | Social

  /** How a mode is spelled when it is interpolated into a string. */
  function ModeName(m: Mode): string {
    match m
    case Work => "WORK"
    case School => "SCHOOL"
    case Social => "SOCIAL"
  }

  datatype DetailLevel = Detailed | Standard | Concise

  function DetailName(d: DetailLevel): string {
    match d
    case Detailed => "DETAILED"
    case Standard => "STANDARD"
    case Concise => "CONCISE"
  }

  /** Subscription level; only `Free` is limited. */
  datatype UserTier = Free | Plus | Pro

  /** The quota of analyses a `Free` user may run (constants.ts). */
  const FREE_TIER_LIMIT: int := 5

  datatype ClarityScore = ClarityScore(score: int, explanation: string)

  datatype ResponseOption = ResponseOption(
    kind: string, wording: string, toneDescription: string, socialImpact: string, riskLevel: int)

  datatype Confidence = High | Medium | Low

  /**
    An analysis. `id`, `timestamp`, `mode` and `originalMessage` are always set by the client; the
    other fields come from the service's JSON reply, and a key the reply lacks is `None` (undefined).
   */
  datatype AnalysisResult = AnalysisResult(
    id: string,
    timestamp: int,
    mode: Mode,
    originalMessage: string,
    whatWasSaid: Option<string>,
    whatIsExpected: Option<seq<string>>,
    whatIsOptional: Option<seq<string>>,
    whatCarriesRisk: Option<seq<string>>,
    whatIsNotAskingFor: Option<seq<string>>,
    hiddenRules: Option<seq<string>>,
    clarityScore: Option<ClarityScore>,
    responses: Option<seq<ResponseOption>>,
    confidenceLevel: Option<Confidence>)

  /** An inline attachment: base64 data and its MIME type. */
  datatype Media = Media(data: string, mimeType: string)

  /** A request recorded while offline, submitted later in FIFO order. */
  datatype QueuedAnalysis = QueuedAnalysis(
    id: string,
    message: string,
    mode: Mode,
    detailLevel: DetailLevel,
    image: Option<Media>,
    audio: Option<Media>)

  datatype Screen =
    | Welcome | Onboarding | Home | InputScreen | Loading | Results
    | HistoryScreen | SettingsScreen | Paywall | LibraryScreen | CoachScreen | Legal

  datatype TextSize = TextSmall | TextMedium | TextLarge | TextExtraLarge

  datatype FontFamily = Lexend | OpenDyslexic | Comic | Sans

  /** User preferences together with the quota state (`tier`, `analysesCount`). */
  datatype UserSettings = UserSettings(
    textSize: TextSize,
    fontFamily: FontFamily,
    voiceName: string,
    analysisDetail: DetailLevel,
    audioOutput: bool,
    audioSpeed: real,
    defaultMode: Mode,
    darkMode: bool,
    tier: UserTier,
    analysesCount: int,
    subscriptionExpiry: Option<int>)

  datatype LibraryItemKind = UrlItem | FileItem

  datatype Icon = Brain | Briefcase | Book | MessageCircle

  /** A library item before the application gives it an id and a creation time. */
  datatype LibraryDraft = LibraryDraft(
    title: string,
    description: string,
    kind: LibraryItemKind,
    url: Option<string>,
    fileData: Option<string>,
    fileName: Option<string>,
    mimeType: Option<string>,
    icon: Icon)

  datatype CustomLibraryItem = CustomLibraryItem(id: string, createdAt: int, content: LibraryDraft)
}
