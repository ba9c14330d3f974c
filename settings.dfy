/**
 * The uploader settings panel: the three panels a user sees (main, Google
 * Drive, rclone), the inline-button callbacks that change the user's settings,
 * and the reply handler that stores a value sent in answer to one of the
 * panel's prompts. One user's settings row is a `SettingsStore` object whose
 * `settings` field the callbacks and the reply handler update.
 */
module UploaderSettings {
  import opened Common
  import UploadDestinations
  import Uploader

  const NOT_SET := "Not Set"
  const DEFAULT_UPLOADER_KEY := "default_uploader"
  const STOP_DUPLICATE_KEY := "stop_duplicate"
  const SET_DEFAULT := "us_set_default"
  const TOGGLE_DUPLICATE := "us_gdrive_toggle_duplicate"

  // ---------------------------------------------------------------------
  // Panels

  /** The uploader name the main panel shows: the stored choice, else `Telegram`, capitalised. */
  function ShownDefault(settings: UserSettings): string
  {
    Capitalize(OrElse(TextSetting(settings, DEFAULT_UPLOADER_KEY), "Telegram"))
  }

  datatype GDrivePanel = GDrivePanel(folderId: string, indexUrl: string, stopDuplicate: bool)

  /** The Google Drive panel: each value falls back to `Config`, then to `Not Set`. */
  function GDrivePanelOf(config: UploadDestinations.UploadConfig, settings: UserSettings): GDrivePanel
  {
    GDrivePanel(
      OrElse(Or(TextSetting(settings, "gdrive_id"), config.gdriveId), NOT_SET),
      OrElse(Or(Or(TextSetting(settings, "index_url"), config.indexUrl), config.indexLink), NOT_SET),
      GetOr(FlagSetting(settings, STOP_DUPLICATE_KEY), config.stopDuplicate))
  }

  datatype RclonePanel = RclonePanel(dest: string, flags: string)

  function RclonePanelOf(config: UploadDestinations.UploadConfig, settings: UserSettings): RclonePanel
  {
    RclonePanel(
      OrElse(Or(TextSetting(settings, "rclone_dest"), config.rcloneDest), NOT_SET),
      OrElse(Or(TextSetting(settings, "rclone_flags"), config.rcloneFlags), NOT_SET))
  }

  /**
   * The Drive panel shows the folder id and the rclone panel the destination
   * and flags the uploader itself would use, and `Not Set` exactly when the
   * uploader has none.
   */
  lemma PanelsShowUploaderValues(config: UploadDestinations.UploadConfig, settings: UserSettings)
    ensures var id := UploadDestinations.DriveFolderId(config, settings);
            GDrivePanelOf(config, settings).folderId == (if Truthy(id) then id.value else NOT_SET)
    ensures var dest := UploadDestinations.RcloneDest(config, settings);
            RclonePanelOf(config, settings).dest == (if Truthy(dest) then dest.value else NOT_SET)
    ensures var flags := UploadDestinations.RcloneFlags(config, settings);
            RclonePanelOf(config, settings).flags == (if Truthy(flags) then flags.value else NOT_SET)
  {
  }

  /** The index URL falls back to `INDEX_URL`, then `INDEX_LINK`, then `Not Set`. */
  lemma IndexUrlFallbacks(config: UploadDestinations.UploadConfig, settings: UserSettings)
    ensures var own := TextSetting(settings, "index_url");
            var shown := GDrivePanelOf(config, settings).indexUrl;
            (Truthy(own) ==> shown == own.value) &&
            (!Truthy(own) && Truthy(config.indexUrl) ==> shown == config.indexUrl.value) &&
            (!Truthy(own) && !Truthy(config.indexUrl) && Truthy(config.indexLink) ==> shown == config.indexLink.value) &&
            (!Truthy(own) && !Truthy(config.indexUrl) && !Truthy(config.indexLink) ==> shown == NOT_SET)
  {
  }

  lemma LowerUnchanged(s: string)
    requires forall i :: 0 <= i < |s| ==> !IsUpper(s[i])
    ensures Lower(s) == s
  {
  }

  /** `"Telegram".capitalize() == "Telegram"` */
  lemma CapitalizeTelegram()
    ensures Capitalize("Telegram") == "Telegram"
  {
    LowerUnchanged("elegram");
    assert "Telegram"[1..] == "elegram";
  }

  /**
   * As written, the main panel shows `Telegram` whenever the user has no
   * choice of their own, even when `Config.DEFAULT_UPLOAD` sends their uploads
   * to Google Drive.
   */
  lemma ShownDefaultIgnoresConfig(settings: UserSettings, defaultUpload: Option<string>)
    requires !Truthy(TextSetting(settings, DEFAULT_UPLOADER_KEY))
    requires defaultUpload == Some("gdrive")
    ensures ShownDefault(settings) == "Telegram"
    ensures Uploader.Route(Uploader.ResolveUploader(TextSetting(settings, DEFAULT_UPLOADER_KEY), defaultUpload)) == Uploader.GDrive
    ensures Lower(ShownDefault(settings)) != Lower(Uploader.ResolveUploader(TextSetting(settings, DEFAULT_UPLOADER_KEY), defaultUpload))
  {
    CapitalizeTelegram();
    assert |ShownDefault(settings)| == 8;
  }

  /** The main panel naming the uploader the router resolves. */
  function ShownDefaultCorrected(settings: UserSettings, defaultUpload: Option<string>): string
  {
    Capitalize(Uploader.ResolveUploader(TextSetting(settings, DEFAULT_UPLOADER_KEY), defaultUpload))
  }

  /** Up to case, the corrected panel shows exactly the uploader an upload goes to. */
  lemma CorrectedDefaultMatchesRouter(settings: UserSettings, defaultUpload: Option<string>)
    ensures var resolved := Uploader.ResolveUploader(TextSetting(settings, DEFAULT_UPLOADER_KEY), defaultUpload);
            Lower(ShownDefaultCorrected(settings, defaultUpload)) == Lower(resolved)
    ensures Truthy(TextSetting(settings, DEFAULT_UPLOADER_KEY)) ==>
              ShownDefaultCorrected(settings, defaultUpload) == ShownDefault(settings)
  {
    LowerCapitalize(Uploader.ResolveUploader(TextSetting(settings, DEFAULT_UPLOADER_KEY), defaultUpload));
  }

  // ---------------------------------------------------------------------
  // Callbacks

  /** The prompts a button sends; the user answers one by replying to it. */
  datatype Prompt = TokenPrompt | FolderIdPrompt | IndexUrlPrompt | RcloneConfPrompt | RcloneDestPrompt | RcloneFlagsPrompt

  /** What a callback does on screen besides changing the settings. */
  datatype Reaction =
    | DeletePanel
    | ShowMain
    | ShowDefaultMenu
    | DefaultSet(name: string)
    | ShowGDrive
    | DuplicateSet(enabled: bool)
    | ShowRclone
    | Ask(prompt: Prompt)
    | Ignore

  /** `data.startswith("us_set_default_")` */
  predicate SetsDefault(data: string)
  {
    SET_DEFAULT + "_" <= data
  }

  /** The settings after choosing `name` as the default uploader. */
  function WithDefault(settings: UserSettings, name: string): UserSettings
  {
    settings.(texts := settings.texts[DEFAULT_UPLOADER_KEY := name])
  }

  /** The settings after the stop-duplicate toggle: an unset flag counts as enabled. */
  function Toggled(settings: UserSettings): UserSettings
  {
    settings.(flags := settings.flags[STOP_DUPLICATE_KEY := !GetOr(FlagSetting(settings, STOP_DUPLICATE_KEY), true)])
  }

  /** The screen a callback that changes nothing leads to. */
  function Navigate(data: string): (r: Reaction)
    ensures r != DeletePanel <==> data != "us_close"
    ensures r.DefaultSet? == false && r.DuplicateSet? == false
  {
    if data == "us_close" then DeletePanel
    else if data == "us_back_main" then ShowMain
    else if data == SET_DEFAULT then ShowDefaultMenu
    else if data == "us_gdrive" then ShowGDrive
    else if data == "us_gdrive_upload" then Ask(TokenPrompt)
    else if data == "us_gdrive_set_id" then Ask(FolderIdPrompt)
    else if data == "us_gdrive_set_index" then Ask(IndexUrlPrompt)
    else if data == "us_rclone" then ShowRclone
    else if data == "us_rclone_upload" then Ask(RcloneConfPrompt)
    else if data == "us_rclone_set_path" then Ask(RcloneDestPrompt)
    else if data == "us_rclone_set_flags" then Ask(RcloneFlagsPrompt)
    else Ignore
  }

  /** Pressing the toggle twice restores a stored stop-duplicate flag. */
  lemma ToggleTwiceRestores(settings: UserSettings)
    requires STOP_DUPLICATE_KEY in settings.flags
    ensures Toggled(Toggled(settings)) == settings
  {
    assert Toggled(Toggled(settings)).flags == settings.flags;
  }

  /**
   * As written, when the flag is unset and `Config.STOP_DUPLICATE` is off,
   * the panel shows `Disabled`, the toggle stores `False`, and the panel still
   * shows `Disabled`.
   */
  lemma FirstToggleCanKeepPanel(config: UploadDestinations.UploadConfig, settings: UserSettings)
    requires STOP_DUPLICATE_KEY !in settings.flags
    requires !config.stopDuplicate
    ensures !GDrivePanelOf(config, settings).stopDuplicate
    ensures !GDrivePanelOf(config, Toggled(settings)).stopDuplicate
  {
  }

  /** The toggle flipping the state the panel shows. */
  function ToggledCorrected(config: UploadDestinations.UploadConfig, settings: UserSettings): UserSettings
  {
    settings.(flags := settings.flags[STOP_DUPLICATE_KEY := !GDrivePanelOf(config, settings).stopDuplicate])
  }

  /**
   * The corrected toggle always flips what the panel shows and agrees with
   * the written one whenever the flag is stored or the bot-wide default is on.
   */
  lemma CorrectedToggleFlipsPanel(config: UploadDestinations.UploadConfig, settings: UserSettings)
    ensures GDrivePanelOf(config, ToggledCorrected(config, settings)).stopDuplicate == !GDrivePanelOf(config, settings).stopDuplicate
    ensures STOP_DUPLICATE_KEY in settings.flags || config.stopDuplicate ==> ToggledCorrected(config, settings) == Toggled(settings)
  {
  }

  /**
   * A button whose data ends in a name without `_` stores that name, and
   * every later upload is routed by it whatever `Config.DEFAULT_UPLOAD` says.
   */
  lemma ChosenDefaultRoutes(settings: UserSettings, defaultUpload: Option<string>, name: string)
    requires name != [] && forall i :: 0 <= i < |name| ==> name[i] != '_'
    ensures var s := WithDefault(settings, AfterLast(SET_DEFAULT + "_" + name, '_'));
            Uploader.ResolveUploader(TextSetting(s, DEFAULT_UPLOADER_KEY), defaultUpload) == name
  {
    assert SET_DEFAULT + "_" + name == SET_DEFAULT + ['_'] + name;
    AfterLastSuffix(SET_DEFAULT, '_', name);
  }

  /** The three buttons of the default menu store `telegram`, `gdrive` and `rclone`. */
  lemma DefaultButtonsRoute(settings: UserSettings, defaultUpload: Option<string>, name: string)
    requires name == "telegram" || name == "gdrive" || name == "rclone"
    ensures var s := WithDefault(settings, AfterLast(SET_DEFAULT + "_" + name, '_'));
            Uploader.ResolveUploader(TextSetting(s, DEFAULT_UPLOADER_KEY), defaultUpload) == name
  {
    ChosenDefaultRoutes(settings, defaultUpload, name);
  }

  // ---------------------------------------------------------------------
  // Replies to the panel's prompts

  datatype ConfigKey = RcloneConfigKey | TokenKey | FolderIdKey | IndexUrlKey | RcloneDestKey | RcloneFlagsKey

  /** The settings key each prompt's answer is stored under. */
  function KeyName(k: ConfigKey): string
  {
    match k
    case RcloneConfigKey => "rclone_config"
    case TokenKey => "gdrive_token"
    case FolderIdKey => "gdrive_id"
    case IndexUrlKey => "index_url"
    case RcloneDestKey => "rclone_dest"
    case RcloneFlagsKey => "rclone_flags"
  }

  /** The phrase in the replied-to message that selects a key. */
  function Marker(k: ConfigKey): string
  {
    match k
    case RcloneConfigKey => "rclone.conf"
    case TokenKey => "token.pickle"
    case FolderIdKey => "Google Drive Folder ID"
    case IndexUrlKey => "Index URL"
    case RcloneDestKey => "Rclone destination path"
    case RcloneFlagsKey => "Rclone flags"
  }

  /** The order in which the markers are tried. */
  function Rank(k: ConfigKey): nat
  {
    match k
    case RcloneConfigKey => 0
    case TokenKey => 1
    case FolderIdKey => 2
    case IndexUrlKey => 3
    case RcloneDestKey => 4
    case RcloneFlagsKey => 5
  }

  /** Files are stored as blobs, everything else as stripped text. */
  predicate IsBlobKey(k: ConfigKey)
  {
    k == RcloneConfigKey || k == TokenKey
  }

  /** The key whose marker occurs first in the trial order, if any. */
  function PromptedKey(replyText: string): (r: Option<ConfigKey>)
    ensures r.Some? ==> Contains(replyText, Marker(r.value))
    ensures r.Some? ==> forall k :: Rank(k) < Rank(r.value) ==> !Contains(replyText, Marker(k))
    ensures r.None? ==> forall k :: !Contains(replyText, Marker(k))
  {
    if Contains(replyText, Marker(RcloneConfigKey)) then Some(RcloneConfigKey)
    else if Contains(replyText, Marker(TokenKey)) then Some(TokenKey)
    else if Contains(replyText, Marker(FolderIdKey)) then Some(FolderIdKey)
    else if Contains(replyText, Marker(IndexUrlKey)) then Some(IndexUrlKey)
    else if Contains(replyText, Marker(RcloneDestKey)) then Some(RcloneDestKey)
    else if Contains(replyText, Marker(RcloneFlagsKey)) then Some(RcloneFlagsKey)
    else None
  }

  datatype Value = TextValue(text: string) | BlobValue(blob: Blob)

  predicate IsEmpty(v: Value)
  {
    match v
    case TextValue(t) => t == []
    case BlobValue(b) => b == []
  }

  /**
   * A message answering a prompt: the text of the message it replies to, its
   * own text, and the bytes of the document it carries.
   */
  datatype Incoming = Incoming(replyTo: Option<string>, text: Option<string>, document: Option<Blob>)

  /**
   * The key and value a reply yields, or `None` when the handler returns
   * without answering.
   */
  function Received(msg: Incoming): (r: Option<(ConfigKey, Value)>)
    ensures r.Some? ==> Truthy(msg.replyTo) && PromptedKey(msg.replyTo.value) == Some(r.value.0)
    ensures r.Some? ==> (IsBlobKey(r.value.0) <==> r.value.1.BlobValue?)
    ensures r.Some? && r.value.1.BlobValue? ==> msg.document == Some(r.value.1.blob)
    ensures r.Some? && r.value.1.TextValue? ==> msg.text.Some? && r.value.1.text == Strip(msg.text.value)
    ensures r.None? <==>
              !Truthy(msg.replyTo) || PromptedKey(msg.replyTo.value).None? ||
              (IsBlobKey(PromptedKey(msg.replyTo.value).value) && msg.document.None?) ||
              (!IsBlobKey(PromptedKey(msg.replyTo.value).value) && !Truthy(msg.text))
  {
    if !Truthy(msg.replyTo) then None
    else
      match PromptedKey(msg.replyTo.value)
      case None => None
      case Some(k) =>
        if IsBlobKey(k) then
          if msg.document.None? then None else Some((k, BlobValue(msg.document.value)))
        else
          if !Truthy(msg.text) then None else Some((k, TextValue(Strip(msg.text.value))))
  }

  /** The settings after storing `v` under `k`. */
  function Store(settings: UserSettings, k: ConfigKey, v: Value): UserSettings
  {
    match v
    case TextValue(t) => settings.(texts := settings.texts[KeyName(k) := t])
    case BlobValue(b) => settings.(blobs := settings.blobs[KeyName(k) := b])
  }

  datatype UploadReply = Silent | Saved(key: ConfigKey) | NoValueReceived

  /**
   * A stored answer is what the uploaders use from then on: the Drive folder
   * id and token, the rclone configuration, destination and flags.
   */
  lemma StoredValueReachesUploader(config: UploadDestinations.UploadConfig, settings: UserSettings, k: ConfigKey, v: Value,
                                   globalContents: Blob, disk: set<string>)
    requires !IsEmpty(v) && (IsBlobKey(k) <==> v.BlobValue?)
    ensures var s := Store(settings, k, v);
            (k == FolderIdKey ==> UploadDestinations.DriveFolderId(config, s) == Some(v.text)) &&
            (k == TokenKey ==> UploadDestinations.DriveToken(s) == Some(v.blob) && BlobGiven(UploadDestinations.DriveToken(s))) &&
            (k == RcloneConfigKey ==> UploadDestinations.RcloneCredentials(s, globalContents) == v.blob &&
                                      UploadDestinations.RcloneConfigFound(config, s, disk)) &&
            (k == RcloneDestKey ==> UploadDestinations.RcloneDest(config, s) == Some(v.text)) &&
            (k == RcloneFlagsKey ==> UploadDestinations.RcloneFlags(config, s) == Some(v.text)) &&
            (k == IndexUrlKey ==> GDrivePanelOf(config, s).indexUrl == v.text)
  {
  }

  /** A stored text answer never begins or ends with whitespace. */
  lemma StoredTextIsStripped(msg: Incoming)
    requires Received(msg).Some? && Received(msg).value.1.TextValue?
    ensures var t := Received(msg).value.1.text;
            t == [] || (!IsWhitespace(t[0]) && !IsWhitespace(t[|t| - 1]))
    ensures Received(msg).value.1.text == [] <==>
              forall i :: 0 <= i < |msg.text.value| ==> IsWhitespace(msg.text.value[i])
  {
    StripEmptyIffBlank(msg.text.value);
  }

  // ---------------------------------------------------------------------
  // One user's settings row

  class SettingsStore {
    var settings: UserSettings

    constructor(initial: UserSettings)
      ensures settings == initial
    {
      settings := initial;
    }

    /**
     * `uploader_settings_callbacks`: choosing a default stores the last
     * `_`-separated part of the button's data, the toggle flips the
     * stop-duplicate flag, and every other button only changes the screen.
     */
    method Callback(data: string) returns (reaction: Reaction)
      modifies this
      ensures SetsDefault(data) ==>
                reaction == DefaultSet(AfterLast(data, '_')) &&
                settings == WithDefault(old(settings), AfterLast(data, '_'))
      ensures data == TOGGLE_DUPLICATE ==>
                reaction == DuplicateSet(!GetOr(FlagSetting(old(settings), STOP_DUPLICATE_KEY), true)) &&
                settings == Toggled(old(settings))
      ensures !SetsDefault(data) && data != TOGGLE_DUPLICATE ==> reaction == Navigate(data) && settings == old(settings)
    {
      assert !SetsDefault(TOGGLE_DUPLICATE) by {
        assert TOGGLE_DUPLICATE[3] != (SET_DEFAULT + "_")[3];
      }
      if data == "us_close" {
        return DeletePanel;
      }
      if data == "us_back_main" {
        reaction := ShowMain;
      } else if data == SET_DEFAULT {
        reaction := ShowDefaultMenu;
      } else if SetsDefault(data) {
        var name := AfterLast(data, '_');
        settings := WithDefault(settings, name);
        reaction := DefaultSet(name);
      } else if data == TOGGLE_DUPLICATE {
        var stop := GetOr(FlagSetting(settings, STOP_DUPLICATE_KEY), true);
        settings := Toggled(settings);
        reaction := DuplicateSet(!stop);
      } else {
        reaction := Navigate(data);
      }
    }

    /**
     * `handle_config_uploads`: a non-empty value is stored under the key of
     * the prompt replied to; an empty one is answered with `No value received`.
     */
    method ConfigUpload(msg: Incoming) returns (reply: UploadReply)
      modifies this
      ensures Received(msg).None? ==> reply == Silent && settings == old(settings)
      ensures Received(msg).Some? && IsEmpty(Received(msg).value.1) ==>
                reply == NoValueReceived && settings == old(settings)
      ensures Received(msg).Some? && !IsEmpty(Received(msg).value.1) ==>
                reply == Saved(Received(msg).value.0) &&
                settings == Store(old(settings), Received(msg).value.0, Received(msg).value.1)
    {
      if !Truthy(msg.replyTo) {
        return Silent;
      }
      var key := PromptedKey(msg.replyTo.value);
      if key.None? {
        return Silent;
      }
      var value: Value;
      if IsBlobKey(key.value) {
        if msg.document.None? {
          return Silent;
        }
        value := BlobValue(msg.document.value);
      } else {
        if !Truthy(msg.text) {
          return Silent;
        }
        value := TextValue(Strip(msg.text.value));
      }
      if !IsEmpty(value) {
        settings := Store(settings, key.value, value);
        reply := Saved(key.value);
      } else {
        reply := NoValueReceived;
      }
    }
  }
}
