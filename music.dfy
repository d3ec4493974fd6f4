/** The music settings endpoints: reading the single music configuration row
    (created with empty columns on first use) and updating it from a
    settings request, where only the playlist id is optional. */
module Music {
  import opened Wrappers
  import opened Models

  const DEFAULT_VOLUME := 50
  const UPDATED_MESSAGE := "Music settings updated"

  /** The `MusicSettings` request body. */
  datatype MusicSettings = MusicSettings(youtubePlaylistId: Option<string>, musicEnabled: bool, volume: int)

  /** The request body as validated: `youtube_playlist_id` and `volume` may be
      left out, and then default to `None` and 50; `music_enabled` is required. */
  function ParseSettings(youtubePlaylistId: Option<string>, musicEnabled: bool, volume: Option<int>)
    : (s: MusicSettings)
    ensures s.youtubePlaylistId == youtubePlaylistId && s.musicEnabled == musicEnabled
    ensures volume.None? ==> s.volume == DEFAULT_VOLUME
    ensures volume.Some? ==> s.volume == volume.value
  {
    MusicSettings(youtubePlaylistId, musicEnabled, volume.GetOr(DEFAULT_VOLUME))
  }

  /** The row after an update: the playlist id is replaced only when the
      request carries one; the enabled flag and the volume are always
      replaced. */
  function ApplySettings(config: MusicConfig, s: MusicSettings): (r: MusicConfig)
    ensures s.youtubePlaylistId.Some? ==> r.youtubePlaylistId == s.youtubePlaylistId
    ensures s.youtubePlaylistId.None? ==> r.youtubePlaylistId == config.youtubePlaylistId
    ensures r.musicEnabled == Some(s.musicEnabled) && r.volume == Some(s.volume)
  {
    var playlist := if s.youtubePlaylistId.Some? then s.youtubePlaylistId else config.youtubePlaylistId;
    config.(youtubePlaylistId := playlist, musicEnabled := Some(s.musicEnabled), volume := Some(s.volume))
  }

  /** Sending the same settings twice has the effect of sending them once. */
  lemma ApplySettingsIdempotent(config: MusicConfig, s: MusicSettings)
    ensures ApplySettings(ApplySettings(config, s), s) == ApplySettings(config, s)
  {
  }

  /** A later update overrides an earlier one, except that an earlier playlist
      id survives a later request without one. */
  lemma ApplySettingsTwice(config: MusicConfig, s1: MusicSettings, s2: MusicSettings)
    ensures ApplySettings(ApplySettings(config, s1), s2)
            == ApplySettings(config, s2.(youtubePlaylistId :=
                 if s2.youtubePlaylistId.Some? then s2.youtubePlaylistId else s1.youtubePlaylistId))
  {
  }

  /** The table after `update_music_config`: the first row updated, or one new
      row made from the request when the table is empty; any other row is
      left as it was. */
  function UpdatedConfigs(rows: seq<MusicConfig>, s: MusicSettings): (r: seq<MusicConfig>)
    ensures |r| == if rows == [] then 1 else |rows|
    ensures r[0] == ApplySettings(if rows == [] then DefaultMusicConfig else rows[0], s)
    ensures rows != [] ==> r[1..] == rows[1..]
  {
    var table := GetOrCreate(rows, DefaultMusicConfig);
    table[0 := ApplySettings(table[0], s)]
  }

  /** `get_music_config`: the first row, created with every column empty when
      the table has none. */
  method GetMusicConfig(db: Database) returns (config: MusicConfig)
    modifies db`musicConfigs
    ensures db.musicConfigs == GetOrCreate(old(db.musicConfigs), DefaultMusicConfig)
    ensures config == db.musicConfigs[0]
    ensures old(db.musicConfigs) != [] ==> config == old(db.musicConfigs)[0]
    ensures old(db.musicConfigs) == [] ==> config == DefaultMusicConfig
  {
    if db.musicConfigs == [] {
      db.musicConfigs := [DefaultMusicConfig];
    }
    config := db.musicConfigs[0];
  }

  /** The answer of the update endpoint: a fixed message and the request
      echoed back. */
  datatype UpdateReply = UpdateReply(message: string, config: MusicSettings)

  /** `update_music_config(settings)`: answers with the settings it was sent,
      not with the stored row. */
  method UpdateMusicConfig(db: Database, settings: MusicSettings) returns (reply: UpdateReply)
    modifies db`musicConfigs
    ensures db.musicConfigs == UpdatedConfigs(old(db.musicConfigs), settings)
    ensures reply == UpdateReply(UPDATED_MESSAGE, settings)
  {
    var config: MusicConfig;
    if db.musicConfigs == [] {
      config := DefaultMusicConfig;
      db.musicConfigs := [config];
    } else {
      config := db.musicConfigs[0];
    }
    if settings.youtubePlaylistId.Some? {
      config := config.(youtubePlaylistId := settings.youtubePlaylistId);
    }
    config := config.(musicEnabled := Some(settings.musicEnabled));
    config := config.(volume := Some(settings.volume));
    db.musicConfigs := db.musicConfigs[0 := config];
    reply := UpdateReply(UPDATED_MESSAGE, settings);
  }
}
