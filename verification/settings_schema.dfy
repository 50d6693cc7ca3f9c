/**
 The shape of the plugin's settings, their built-in defaults and the fixed
 allow-list of front-matter property names.
 */
module SettingsSchema {
  import opened Wrappers
  import opened Text

  /** The sixteen front-matter property names an activity note may carry. */
  const AllowList: seq<string> := [
    "id",
    "start_date",
    "name",
    "type",
    "description",
    "private_note",
    "elapsed_time",
    "moving_time",
    "distance",
    "max_heart_rate",
    "max_speed",
    "average_speed",
    "total_elevation_gain",
    "elev_low",
    "elev_high",
    "calories"
  ]

  /**
   The built-in activity template. Its text is defined by the activity
   renderer, which is not part of this model, so it is left uninterpreted.
   */
  const DefaultTemplate: string

  datatype AuthenticationSettings = AuthenticationSettings(
    clientId: string,
    clientSecret: string,
    accessToken: Option<string>,
    refreshToken: Option<string>,
    tokenExpiresAt: Option<int>)

  datatype SyncLocationSettings = SyncLocationSettings(
    folder: string,
    folderDateFormat: string,
    filename: string,
    filenameDateFormat: string)

  datatype ActivitySettings = ActivitySettings(
    contentDateFormat: string,
    frontMatterProperties: seq<string>,
    template: string)

  datatype Settings = Settings(
    authentication: AuthenticationSettings,
    syncLocation: SyncLocationSettings,
    activity: ActivitySettings)

  const DefaultSettings: Settings := Settings(
    AuthenticationSettings("", "", None, None, None),
    SyncLocationSettings("Strava/{{start_date}}", "yyyy-MM-dd", "{{id}} {{name}}", "yyyy-MM-dd"),
    ActivitySettings("yyyy-MM-dd HH:mm:ss", [], DefaultTemplate))

  /** Every leaf field of `Settings`, one constructor each. */
  datatype Field =
    | ClientId | ClientSecret | AccessToken | RefreshToken | TokenExpiresAt
    | Folder | FolderDateFormat | Filename | FilenameDateFormat
    | ContentDateFormat | FrontMatterProperties | Template

  /** The value held by one leaf field, tagged by its type. */
  datatype Value =
    | Str(str: string)
    | Names(names: seq<string>)
    | MaybeStr(maybeStr: Option<string>)
    | MaybeTime(maybeTime: Option<int>)

  /** Reads one leaf field. */
  function Get(s: Settings, f: Field): Value {
    match f
    case ClientId => Str(s.authentication.clientId)
    case ClientSecret => Str(s.authentication.clientSecret)
    case AccessToken => MaybeStr(s.authentication.accessToken)
    case RefreshToken => MaybeStr(s.authentication.refreshToken)
    case TokenExpiresAt => MaybeTime(s.authentication.tokenExpiresAt)
    case Folder => Str(s.syncLocation.folder)
    case FolderDateFormat => Str(s.syncLocation.folderDateFormat)
    case Filename => Str(s.syncLocation.filename)
    case FilenameDateFormat => Str(s.syncLocation.filenameDateFormat)
    case ContentDateFormat => Str(s.activity.contentDateFormat)
    case FrontMatterProperties => Names(s.activity.frontMatterProperties)
    case Template => Str(s.activity.template)
  }

  /** `Field` names every part of a `Settings` value: agreeing on all fields is equality. */
  lemma FieldsDetermineSettings(s: Settings, t: Settings)
    requires forall f :: Get(s, f) == Get(t, f)
    ensures s == t
  {
    assert Get(s, ClientId) == Get(t, ClientId);
    assert Get(s, ClientSecret) == Get(t, ClientSecret);
    assert Get(s, AccessToken) == Get(t, AccessToken);
    assert Get(s, RefreshToken) == Get(t, RefreshToken);
    assert Get(s, TokenExpiresAt) == Get(t, TokenExpiresAt);
    assert Get(s, Folder) == Get(t, Folder);
    assert Get(s, FolderDateFormat) == Get(t, FolderDateFormat);
    assert Get(s, Filename) == Get(t, Filename);
    assert Get(s, FilenameDateFormat) == Get(t, FilenameDateFormat);
    assert Get(s, ContentDateFormat) == Get(t, ContentDateFormat);
    assert Get(s, FrontMatterProperties) == Get(t, FrontMatterProperties);
    assert Get(s, Template) == Get(t, Template);
  }

  predicate NoDuplicates(xs: seq<string>) {
    forall i, j :: 0 <= i < j < |xs| ==> xs[i] != xs[j]
  }

  /** A front-matter list as the settings keep it: allow-listed names, each at most once. */
  predicate IsPropertyList(xs: seq<string>) {
    && NoDuplicates(xs)
    && forall i :: 0 <= i < |xs| ==> xs[i] in AllowList
  }

  /** The invariant every reachable settings value keeps. */
  predicate WellFormed(s: Settings) {
    IsPropertyList(s.activity.frontMatterProperties)
  }

  /** An entry the split-and-trim of the front-matter editor leaves intact. */
  predicate IsPlainName(x: string) {
    x != "" && ',' !in x && IsTrimmed(x)
  }

  /**
   The allow-list has sixteen distinct entries, none empty, none containing
   the list separator `,` and none with whitespace at either end.
   */
  lemma AllowListShape()
    ensures |AllowList| == 16
    ensures NoDuplicates(AllowList)
    ensures forall x :: x in AllowList ==> IsPlainName(x)
  {
    AllowListEntriesPlain();
    AllowListDistinct();
  }

  lemma AllowListEntriesPlain()
    ensures forall i :: 0 <= i < |AllowList| ==> IsPlainName(AllowList[i])
  {
    assert IsPlainName("id");
    assert IsPlainName("start_date");
    assert IsPlainName("name");
    assert IsPlainName("type");
    assert IsPlainName("description");
    assert IsPlainName("private_note");
    assert IsPlainName("elapsed_time");
    assert IsPlainName("moving_time");
    assert IsPlainName("distance");
    assert IsPlainName("max_heart_rate");
    assert IsPlainName("max_speed");
    assert IsPlainName("average_speed");
    assert IsPlainName("total_elevation_gain");
    assert IsPlainName("elev_low");
    assert IsPlainName("elev_high");
    assert IsPlainName("calories");
  }

  lemma AllowListDistinct()
    ensures NoDuplicates(AllowList)
  {
    AllowListDistinctFrom0To2();
    AllowListDistinctFrom2To5();
    AllowListDistinctFrom5To9();
    AllowListDistinctFrom9To16();
    forall i, j | 0 <= i < j < |AllowList|
      ensures AllowList[i] != AllowList[j]
    {
      assert DistinctLater(i);
    }
  }

  /** The allow-list entry at `k` does not recur later in the list. */
  predicate DistinctLater(k: int)
    requires 0 <= k < |AllowList|
  {
    forall j :: k < j < |AllowList| ==> AllowList[k] != AllowList[j]
  }

  lemma AllowListDistinctFrom0To2()
    ensures forall k :: 0 <= k < 2 ==> DistinctLater(k)
  {
    assert DistinctLater(0);
    assert DistinctLater(1);
  }

  lemma AllowListDistinctFrom2To5()
    ensures forall k :: 2 <= k < 5 ==> DistinctLater(k)
  {
    assert DistinctLater(2);
    assert DistinctLater(3);
    assert DistinctLater(4);
  }

  lemma AllowListDistinctFrom5To9()
    ensures forall k :: 5 <= k < 9 ==> DistinctLater(k)
  {
    assert DistinctLater(5);
    assert DistinctLater(6);
    assert DistinctLater(7);
    assert DistinctLater(8);
  }

  lemma AllowListDistinctFrom9To16()
    ensures forall k :: 9 <= k < 16 ==> DistinctLater(k)
  {
    assert DistinctLater(9);
    assert DistinctLater(10);
    assert DistinctLater(11);
    assert DistinctLater(12);
    assert DistinctLater(13);
    assert DistinctLater(14);
    assert DistinctLater(15);
  }

  lemma EmptyNameNotAllowed()
    ensures "" !in AllowList
  {
    AllowListShape();
  }

  /** Every entry of a property list passes the editor's split-and-trim intact. */
  lemma PropertyListEntriesPlain(xs: seq<string>)
    requires IsPropertyList(xs)
    ensures forall i :: 0 <= i < |xs| ==> IsPlainName(xs[i])
  {
    AllowListShape();
  }

  /** The declared defaults, and that they satisfy the settings invariant. */
  lemma DefaultSettingsShape()
    ensures Get(DefaultSettings, ClientId) == Str("")
    ensures Get(DefaultSettings, ClientSecret) == Str("")
    ensures Get(DefaultSettings, AccessToken) == MaybeStr(None)
    ensures Get(DefaultSettings, RefreshToken) == MaybeStr(None)
    ensures Get(DefaultSettings, TokenExpiresAt) == MaybeTime(None)
    ensures Get(DefaultSettings, Folder) == Str("Strava/{{start_date}}")
    ensures Get(DefaultSettings, FolderDateFormat) == Str("yyyy-MM-dd")
    ensures Get(DefaultSettings, Filename) == Str("{{id}} {{name}}")
    ensures Get(DefaultSettings, FilenameDateFormat) == Str("yyyy-MM-dd")
    ensures Get(DefaultSettings, ContentDateFormat) == Str("yyyy-MM-dd HH:mm:ss")
    ensures Get(DefaultSettings, FrontMatterProperties) == Names([])
    ensures Get(DefaultSettings, Template) == Str(DefaultTemplate)
    ensures WellFormed(DefaultSettings)
  {
  }
}
