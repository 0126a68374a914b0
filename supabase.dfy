/**
  The record <-> row mappings of the database service (services/supabaseService.ts) for
  settings, analyses and queued analyses, with the early returns taken when no database
  client is configured. The queries themselves are not modelled: a read's outcome is a
  `DbReply` given by the caller, and a write yields the row or column set it would send.
  Row fields are named after the table columns. A missing value (`undefined` on the
  TypeScript side, NULL in the table) is `None`.
 */
module Supabase {
  import opened Wrappers
  import opened Types

  /** Outcome of a query: the rows it returned, or an error. */
  datatype DbReply<T> = Rows(data: T) | QueryError

  // ---------------------------------------------------------------- settings

  /**
    A `user_settings` row. `subscription_expiry` is a timestamp column; the model keeps the
    instant in milliseconds (the ISO-string conversion is not modelled).
   */
  datatype SettingsRow = SettingsRow(
    text_size: TextSize,
    font_family: FontFamily,
    voice_name: string,
    analysis_detail: DetailLevel,
    audio_output: bool,
    audio_speed: real,
    default_mode: Mode,
    dark_mode: bool,
    tier: UserTier,
    analyses_count: int,
    subscription_expiry: Option<int>)

  /** `getUserSettings`' column-to-field mapping. */
  function SettingsFromRow(row: SettingsRow): (s: UserSettings)
    ensures s.tier == row.tier && s.analysesCount == row.analyses_count
    ensures s.analysisDetail == row.analysis_detail
    ensures s.subscriptionExpiry == row.subscription_expiry
  {
    UserSettings(
      row.text_size, row.font_family, row.voice_name, row.analysis_detail, row.audio_output,
      row.audio_speed, row.default_mode, row.dark_mode, row.tier, row.analyses_count,
      row.subscription_expiry)
  }

  /** `getUserSettings`: nothing without a client or on a query error (no row included). */
  function GetUserSettings(configured: bool, reply: DbReply<SettingsRow>): (r: Option<UserSettings>)
    ensures r.Some? <==> configured && reply.Rows?
    ensures r.Some? ==> r.value == SettingsFromRow(reply.data)
  {
    if !configured then None
    else match reply
      case QueryError => None
      case Rows(row) => Some(SettingsFromRow(row))
  }

  /** `Partial<UserSettings>`: every field may be undefined. */
  datatype SettingsPatch = SettingsPatch(
    textSize: Option<TextSize>,
    fontFamily: Option<FontFamily>,
    voiceName: Option<string>,
    analysisDetail: Option<DetailLevel>,
    audioOutput: Option<bool>,
    audioSpeed: Option<real>,
    defaultMode: Option<Mode>,
    darkMode: Option<bool>,
    tier: Option<UserTier>,
    analysesCount: Option<int>,
    subscriptionExpiry: Option<int>)

  const EMPTY_PATCH := SettingsPatch(None, None, None, None, None, None, None, None, None, None, None)

  /**
    The column set `dbSettings` sent by `updateUserSettings`: a column is `None` when it is
    absent from the update. `subscription_expiry` is `Some(None)` when it is set to NULL.
   */
  datatype SettingsUpdate = SettingsUpdate(
    text_size: Option<TextSize>,
    font_family: Option<FontFamily>,
    voice_name: Option<string>,
    analysis_detail: Option<DetailLevel>,
    audio_output: Option<bool>,
    audio_speed: Option<real>,
    default_mode: Option<Mode>,
    dark_mode: Option<bool>,
    tier: Option<UserTier>,
    analyses_count: Option<int>,
    subscription_expiry: Option<Option<int>>)

  const NO_COLUMNS := SettingsUpdate(None, None, None, None, None, None, None, None, None, None, None)

  /** The expiry column's value: a falsy expiry (0) is written as NULL. */
  function ExpiryColumn(expiry: int): Option<int> {
    if expiry != 0 then Some(expiry) else None
  }

  /**
    Builds the column set by successive conditional assignments: a column is present exactly
    when its field is defined, with the field's value; a defined expiry of 0 becomes NULL.
   */
  method BuildUpdate(patch: SettingsPatch) returns (u: SettingsUpdate)
    ensures u == Columns(patch)
  {
    u := NO_COLUMNS;
    if patch.textSize.Some? { u := u.(text_size := patch.textSize); }
    assert u == NO_COLUMNS.(text_size := patch.textSize);
    if patch.fontFamily.Some? { u := u.(font_family := patch.fontFamily); }
    if patch.voiceName.Some? { u := u.(voice_name := patch.voiceName); }
    if patch.analysisDetail.Some? { u := u.(analysis_detail := patch.analysisDetail); }
    assert u == NO_COLUMNS.(text_size := patch.textSize, font_family := patch.fontFamily,
                            voice_name := patch.voiceName, analysis_detail := patch.analysisDetail);
    if patch.audioOutput.Some? { u := u.(audio_output := patch.audioOutput); }
    if patch.audioSpeed.Some? { u := u.(audio_speed := patch.audioSpeed); }
    if patch.defaultMode.Some? { u := u.(default_mode := patch.defaultMode); }
    if patch.darkMode.Some? { u := u.(dark_mode := patch.darkMode); }
    assert u == Columns(patch).(tier := None, analyses_count := None, subscription_expiry := None);
    if patch.tier.Some? { u := u.(tier := patch.tier); }
    if patch.analysesCount.Some? { u := u.(analyses_count := patch.analysesCount); }
    if patch.subscriptionExpiry.Some? {
      u := u.(subscription_expiry := Some(ExpiryColumn(patch.subscriptionExpiry.value)));
    }
  }

  /**
    The column set of a patch: each column is present exactly when its field is defined, and
    holds the field's value; a defined expiry of 0 becomes NULL.
   */
  function Columns(patch: SettingsPatch): (u: SettingsUpdate)
    ensures u.text_size == patch.textSize && u.font_family == patch.fontFamily
    ensures u.voice_name == patch.voiceName && u.analysis_detail == patch.analysisDetail
    ensures u.audio_output == patch.audioOutput && u.audio_speed == patch.audioSpeed
    ensures u.default_mode == patch.defaultMode && u.dark_mode == patch.darkMode
    ensures u.tier == patch.tier && u.analyses_count == patch.analysesCount
    ensures u.subscription_expiry.Some? <==> patch.subscriptionExpiry.Some?
    ensures patch.subscriptionExpiry.Some? && patch.subscriptionExpiry.value != 0 ==>
      u.subscription_expiry == Some(patch.subscriptionExpiry)
    ensures patch.subscriptionExpiry == Some(0) ==> u.subscription_expiry == Some(None)
  {
    SettingsUpdate(
      patch.textSize, patch.fontFamily, patch.voiceName, patch.analysisDetail, patch.audioOutput,
      patch.audioSpeed, patch.defaultMode, patch.darkMode, patch.tier, patch.analysesCount,
      if patch.subscriptionExpiry.Some? then Some(ExpiryColumn(patch.subscriptionExpiry.value)) else None)
  }

  /** `updateUserSettings`: without a client nothing is sent. */
  function UpdateUserSettings(configured: bool, patch: SettingsPatch): (r: Option<SettingsUpdate>)
    ensures r.Some? <==> configured
    ensures r.Some? ==> r.value == Columns(patch)
  {
    if configured then Some(Columns(patch)) else None
  }

  /** What the table's UPDATE does to a row: the columns present overwrite, the others stay. */
  function ApplyUpdate(row: SettingsRow, u: SettingsUpdate): SettingsRow {
    SettingsRow(
      u.text_size.GetOr(row.text_size),
      u.font_family.GetOr(row.font_family),
      u.voice_name.GetOr(row.voice_name),
      u.analysis_detail.GetOr(row.analysis_detail),
      u.audio_output.GetOr(row.audio_output),
      u.audio_speed.GetOr(row.audio_speed),
      u.default_mode.GetOr(row.default_mode),
      u.dark_mode.GetOr(row.dark_mode),
      u.tier.GetOr(row.tier),
      u.analyses_count.GetOr(row.analyses_count),
      u.subscription_expiry.GetOr(row.subscription_expiry))
  }

  /** Field `f` of the read-back settings equals the patch's value if defined, the old one if not. */
  predicate Updated<T(==)>(after: T, patched: Option<T>, before: T) {
    after == patched.GetOr(before)
  }

  /**
    Writing a patch and reading the row back gives every defined field's value and leaves the
    undefined fields as they were; only the expiry differs, where 0 comes back undefined.
   */
  lemma PatchReadBack(row: SettingsRow, patch: SettingsPatch)
    ensures var before := SettingsFromRow(row);
      var after := SettingsFromRow(ApplyUpdate(row, Columns(patch)));
      && Updated(after.textSize, patch.textSize, before.textSize)
      && Updated(after.fontFamily, patch.fontFamily, before.fontFamily)
      && Updated(after.voiceName, patch.voiceName, before.voiceName)
      && Updated(after.analysisDetail, patch.analysisDetail, before.analysisDetail)
      && Updated(after.audioOutput, patch.audioOutput, before.audioOutput)
      && Updated(after.audioSpeed, patch.audioSpeed, before.audioSpeed)
      && Updated(after.defaultMode, patch.defaultMode, before.defaultMode)
      && Updated(after.darkMode, patch.darkMode, before.darkMode)
      && Updated(after.tier, patch.tier, before.tier)
      && Updated(after.analysesCount, patch.analysesCount, before.analysesCount)
      && (patch.subscriptionExpiry.None? ==> after.subscriptionExpiry == before.subscriptionExpiry)
      && (patch.subscriptionExpiry.Some? && patch.subscriptionExpiry.value != 0 ==>
            after.subscriptionExpiry == patch.subscriptionExpiry)
      && (patch.subscriptionExpiry == Some(0) ==> after.subscriptionExpiry.None?)
  {
  }

  /** An empty patch sends no column and so leaves the row unchanged. */
  lemma EmptyPatchChangesNothing(row: SettingsRow)
    ensures Columns(EMPTY_PATCH) == NO_COLUMNS
    ensures ApplyUpdate(row, Columns(EMPTY_PATCH)) == row
  {
  }

  // ---------------------------------------------------------------- analyses

  /** An `analyses` row. */
  datatype AnalysisRow = AnalysisRow(
    id: string,
    user_id: string,
    timestamp: int,
    mode: Mode,
    original_message: string,
    what_was_said: Option<string>,
    what_is_expected: Option<seq<string>>,
    what_is_optional: Option<seq<string>>,
    what_carries_risk: Option<seq<string>>,
    what_is_not_asking_for: Option<seq<string>>,
    hidden_rules: Option<seq<string>>,
    clarity_score: Option<ClarityScore>,
    responses: Option<seq<ResponseOption>>,
    confidence_level: Option<Confidence>)

  /** The row `saveAnalysis` inserts. */
  function AnalysisToRow(userId: string, a: AnalysisResult): (row: AnalysisRow)
    ensures row.user_id == userId && row.id == a.id && row.timestamp == a.timestamp
  {
    AnalysisRow(
      a.id, userId, a.timestamp, a.mode, a.originalMessage, a.whatWasSaid, a.whatIsExpected,
      a.whatIsOptional, a.whatCarriesRisk, a.whatIsNotAskingFor, a.hiddenRules, a.clarityScore,
      a.responses, a.confidenceLevel)
  }

  /** `getUserAnalyses`' row mapping: no column is lost, since mapping back with the row's owner gives the row. */
  function RowToAnalysis(row: AnalysisRow): (a: AnalysisResult)
    ensures AnalysisToRow(row.user_id, a) == row
  {
    AnalysisResult(
      row.id, row.timestamp, row.mode, row.original_message, row.what_was_said,
      row.what_is_expected, row.what_is_optional, row.what_carries_risk,
      row.what_is_not_asking_for, row.hidden_rules, row.clarity_score, row.responses,
      row.confidence_level)
  }

  /** Every field saved is recovered: reading a saved row back gives the analysis again. */
  lemma AnalysisRoundTrip(userId: string, a: AnalysisResult)
    ensures RowToAnalysis(AnalysisToRow(userId, a)) == a
  {
  }

  /** `saveAnalysis`: the row inserted, none without a client. */
  function SaveAnalysis(configured: bool, userId: string, a: AnalysisResult): (r: Option<AnalysisRow>)
    ensures r.Some? <==> configured
    ensures r.Some? ==> RowToAnalysis(r.value) == a && r.value.user_id == userId
  {
    if configured then Some(AnalysisToRow(userId, a)) else None
  }

  /** `getUserAnalyses`: the rows mapped one to one, in the order returned; [] without a client or on error. */
  function GetUserAnalyses(configured: bool, reply: DbReply<seq<AnalysisRow>>): (r: seq<AnalysisResult>)
    ensures !configured || reply.QueryError? ==> r == []
    ensures configured && reply.Rows? ==>
      |r| == |reply.data| && forall i :: 0 <= i < |r| ==> r[i] == RowToAnalysis(reply.data[i])
  {
    if !configured then []
    else match reply
      case QueryError => []
      case Rows(rows) => seq(|rows|, i requires 0 <= i < |rows| => RowToAnalysis(rows[i]))
  }

  /** Analyses saved one by one and returned in the same order are read back unchanged. */
  lemma SavedAnalysesReadBack(userId: string, saved: seq<AnalysisResult>)
    ensures var rows := seq(|saved|, i requires 0 <= i < |saved| => AnalysisToRow(userId, saved[i]));
      GetUserAnalyses(true, Rows(rows)) == saved
  {
    var rows := seq(|saved|, i requires 0 <= i < |saved| => AnalysisToRow(userId, saved[i]));
    var r := GetUserAnalyses(true, Rows(rows));
    forall i | 0 <= i < |saved| ensures r[i] == saved[i] {
      AnalysisRoundTrip(userId, saved[i]);
    }
  }

  // ---------------------------------------------------------------- queued analyses

  /** A `queued_analyses` row; attachments are split into data and MIME-type columns. */
  datatype QueuedRow = QueuedRow(
    id: string,
    user_id: string,
    message: string,
    mode: Mode,
    detail_level: DetailLevel,
    image_data: Option<string>,
    image_mime_type: Option<string>,
    audio_data: Option<string>,
    audio_mime_type: Option<string>)

  function DataColumn(m: Option<Media>): Option<string> {
    if m.Some? then Some(m.value.data) else None
  }

  function MimeColumn(m: Option<Media>): Option<string> {
    if m.Some? then Some(m.value.mimeType) else None
  }

  /** The row `addQueuedAnalysis` inserts (`queuedAnalysis.image?.data` and so on). */
  function QueuedToRow(userId: string, q: QueuedAnalysis): (row: QueuedRow)
    ensures row.user_id == userId
    ensures row.image_data.Some? <==> q.image.Some?
    ensures row.audio_data.Some? <==> q.audio.Some?
  {
    QueuedRow(q.id, userId, q.message, q.mode, q.detailLevel,
              DataColumn(q.image), MimeColumn(q.image), DataColumn(q.audio), MimeColumn(q.audio))
  }

  /** A data column is truthy when it holds a non-empty string. */
  predicate Truthy(column: Option<string>) {
    column.Some? && column.value != []
  }

  /**
    `row.x_data ? { data, mimeType } : undefined`. A NULL MIME type next to present data is
    read as the empty string.
   */
  function Attachment(data: Option<string>, mimeType: Option<string>): (m: Option<Media>)
    ensures m.Some? <==> Truthy(data)
    ensures m.Some? ==> m.value.data == data.value
  {
    if Truthy(data) then Some(Media(data.value, mimeType.GetOr([]))) else None
  }

  /** `getQueuedAnalyses`' row mapping: an attachment exactly when its data column is truthy. */
  function RowToQueued(row: QueuedRow): (q: QueuedAnalysis)
    ensures q.image.Some? <==> Truthy(row.image_data)
    ensures q.audio.Some? <==> Truthy(row.audio_data)
    ensures q.id == row.id && q.message == row.message
  {
    QueuedAnalysis(row.id, row.message, row.mode, row.detail_level,
                   Attachment(row.image_data, row.image_mime_type),
                   Attachment(row.audio_data, row.audio_mime_type))
  }

  /** Every attachment the request has carries non-empty data. */
  predicate AttachmentsNonEmpty(q: QueuedAnalysis) {
    && (q.image.Some? ==> q.image.value.data != [])
    && (q.audio.Some? ==> q.audio.value.data != [])
  }

  /**
    A queued request survives the write and the read field for field exactly when its
    attachments have non-empty data; an attachment with empty data comes back undefined.
   */
  lemma QueuedRoundTrip(userId: string, q: QueuedAnalysis)
    ensures RowToQueued(QueuedToRow(userId, q)) == q <==> AttachmentsNonEmpty(q)
  {
    var back := RowToQueued(QueuedToRow(userId, q));
    if !AttachmentsNonEmpty(q) {
      assert back.image != q.image || back.audio != q.audio;
    }
  }

  /**
    `addQueuedAnalysis`: the row inserted, none without a client. The row reads back as the
    queued request exactly when its attachments have non-empty data.
   */
  function AddQueuedAnalysis(configured: bool, userId: string, q: QueuedAnalysis): (r: Option<QueuedRow>)
    ensures r.Some? <==> configured
    ensures r.Some? ==> r.value.user_id == userId && r.value.id == q.id
    ensures r.Some? ==> (RowToQueued(r.value) == q <==> AttachmentsNonEmpty(q))
  {
    QueuedRoundTrip(userId, q);
    if configured then Some(QueuedToRow(userId, q)) else None
  }

  /** `getQueuedAnalyses`: the rows mapped one to one, in the order returned; [] without a client or on error. */
  function GetQueuedAnalyses(configured: bool, reply: DbReply<seq<QueuedRow>>): (r: seq<QueuedAnalysis>)
    ensures !configured || reply.QueryError? ==> r == []
    ensures configured && reply.Rows? ==>
      |r| == |reply.data| && forall i :: 0 <= i < |r| ==> r[i] == RowToQueued(reply.data[i])
  {
    if !configured then []
    else match reply
      case QueryError => []
      case Rows(rows) => seq(|rows|, i requires 0 <= i < |rows| => RowToQueued(rows[i]))
  }

  // ---------------------------------------------------------------- custom library items

  /** A `custom_library_items` row; the table assigns `id` and `created_at` on insert. */
  datatype LibraryRow = LibraryRow(
    id: string,
    user_id: string,
    title: string,
    description: string,
    kind: LibraryItemKind,
    url: Option<string>,
    file_data: Option<string>,
    file_name: Option<string>,
    mime_type: Option<string>,
    icon: Icon,
    created_at: int)

  /**
    The row stored for `addCustomLibraryItem`'s insert: the item's fields and the owner, with
    the identifier and creation time the table assigns.
   */
  function InsertedLibraryRow(userId: string, item: LibraryDraft, id: string, createdAt: int): (row: LibraryRow)
    ensures row.user_id == userId && row.id == id && row.created_at == createdAt
    ensures row.title == item.title && row.url == item.url && row.file_data == item.fileData
  {
    LibraryRow(id, userId, item.title, item.description, item.kind, item.url, item.fileData,
               item.fileName, item.mimeType, item.icon, createdAt)
  }

  /**
    `getCustomLibraryItems`' row mapping: no column is lost, since storing the item again under
    the row's owner, identifier and time gives the row.
   */
  function RowToLibraryItem(row: LibraryRow): (item: CustomLibraryItem)
    ensures InsertedLibraryRow(row.user_id, item.content, item.id, item.createdAt) == row
  {
    CustomLibraryItem(row.id, row.created_at,
      LibraryDraft(row.title, row.description, row.kind, row.url, row.file_data, row.file_name,
                   row.mime_type, row.icon))
  }

  /** An added item reads back with all its fields and the table's identifier and time. */
  lemma LibraryItemRoundTrip(userId: string, item: LibraryDraft, id: string, createdAt: int)
    ensures RowToLibraryItem(InsertedLibraryRow(userId, item, id, createdAt))
            == CustomLibraryItem(id, createdAt, item)
  {
  }

  /** `addCustomLibraryItem`: the row stored, none without a client. */
  function AddCustomLibraryItem(configured: bool, userId: string, item: LibraryDraft, id: string, createdAt: int)
    : (r: Option<LibraryRow>)
    ensures r.Some? <==> configured
    ensures r.Some? ==> RowToLibraryItem(r.value).content == item && r.value.user_id == userId
  {
    if configured then Some(InsertedLibraryRow(userId, item, id, createdAt)) else None
  }

  /** `getCustomLibraryItems`: the rows mapped one to one; [] without a client or on error. */
  function GetCustomLibraryItems(configured: bool, reply: DbReply<seq<LibraryRow>>): (r: seq<CustomLibraryItem>)
    ensures !configured || reply.QueryError? ==> r == []
    ensures configured && reply.Rows? ==>
      |r| == |reply.data| && forall i :: 0 <= i < |r| ==> r[i] == RowToLibraryItem(reply.data[i])
  {
    if !configured then []
    else match reply
      case QueryError => []
      case Rows(rows) => seq(|rows|, i requires 0 <= i < |rows| => RowToLibraryItem(rows[i]))
  }

  // ---------------------------------------------------------------- no client

  /** `getCurrentUser`: no user without a client, otherwise the session's user, if any. */
  function GetCurrentUser<U>(configured: bool, sessionUser: Option<U>): (r: Option<U>)
    ensures !configured ==> r.None?
    ensures configured ==> r == sessionUser
  {
    if configured then sessionUser else None
  }

  /** Without a configured client every read is empty and no write sends anything. */
  lemma UnconfiguredIsInert<U>(userId: string, sessionUser: Option<U>, settings: DbReply<SettingsRow>,
                               patch: SettingsPatch, a: AnalysisResult, analyses: DbReply<seq<AnalysisRow>>,
                               q: QueuedAnalysis, queued: DbReply<seq<QueuedRow>>,
                               item: LibraryDraft, id: string, createdAt: int, items: DbReply<seq<LibraryRow>>)
    ensures GetCurrentUser(false, sessionUser).None?
    ensures GetUserSettings(false, settings).None? && UpdateUserSettings(false, patch).None?
    ensures SaveAnalysis(false, userId, a).None? && GetUserAnalyses(false, analyses) == []
    ensures AddQueuedAnalysis(false, userId, q).None? && GetQueuedAnalyses(false, queued) == []
    ensures AddCustomLibraryItem(false, userId, item, id, createdAt).None?
    ensures GetCustomLibraryItems(false, items) == []
  {
  }
}
