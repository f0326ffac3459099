/** The browser's download configuration (web/src/features/config/model.js) as a state machine, and the
    conflict checks that the server makes on the options built from it (internal/worker/command.go). */
module Config {
  import opened Wrappers

  datatype Mode = Both | Video | Audio

  datatype Kind = VideoOnly | Combined

  datatype Format = Format(id: string, kind: Kind)

  /** The inspected source. `bestVideo` and `bestAudio` are the identifiers a new configuration selects. */
  datatype Info = Info(
    bestVideo: Option<string>, bestAudio: Option<string>, videoFormats: seq<Format>,
    subtitleLanguages: seq<string>, subtitles: seq<string>)

  datatype Extraction = Extraction(downloadMode: Mode, extractAudio: bool)

  datatype Conversions = Conversions(
    remuxCheck: bool, remuxFormat: string, recodeCheck: bool, recodeFormat: string, splitChapters: bool, forceKeyframes: bool)

  datatype Subtitles = Subtitles(enabled: bool, lang: string, custom: string, embed: bool)

  /** The identifiers are in the order in which they were selected. */
  datatype Selection = Selection(
    videoIds: seq<string>, audioIds: seq<string>, multiVideo: bool, multiAudio: bool, customFormat: string)

  datatype Output = Output(
    activePreset: string, filenameBase: string, downloadPath: string, outputFormat: string, audioFormat: string)

  /** The fields that constraints, conflicts and selectors depend on. */
  datatype Config = Config(
    extraction: Extraction, conversions: Conversions, subtitles: Subtitles, selection: Selection, output: Output)

  // ---------------------------------------------------------------- strings

  predicate IsSpace(c: char) {
    c in {'\t', '\n', '\U{0B}', '\U{0C}', '\r', ' ', '\U{A0}', '\U{1680}', '\U{2028}', '\U{2029}', '\U{202F}',
          '\U{205F}', '\U{3000}', '\U{FEFF}'}
    || '\U{2000}' <= c <= '\U{200A}'
  }

  predicate Blank(s: string) {
    forall c :: c in s ==> IsSpace(c)
  }

  function Trim(s: string): (r: string)
    ensures r == "" <==> Blank(s)
    ensures r != "" ==> !IsSpace(r[0]) && !IsSpace(r[|r| - 1])
    ensures |r| <= |s|
    decreases |s|
  {
    if s == "" then s
    else if IsSpace(s[0]) then
      assert s == [s[0]] + s[1..];
      Trim(s[1..])
    else if IsSpace(s[|s| - 1]) then
      assert s == s[..|s| - 1] + [s[|s| - 1]];
      Trim(s[..|s| - 1])
    else s
  }

  /** Cut at both ends of white space. */
  predicate CutTo(s: string, r: string, i: nat, j: nat) {
    i <= j <= |s| && r == s[i..j] && Blank(s[..i]) && Blank(s[j..])
  }

  lemma CutFront(c: char, s: string, r: string, i: nat, j: nat)
    requires IsSpace(c) && CutTo(s, r, i, j)
    ensures CutTo([c] + s, r, i + 1, j + 1)
  {
    hide IsSpace;
    var longer := [c] + s;
    assert longer[1..] == s;
    assert longer[..i + 1] == [c] + s[..i];
    assert longer[j + 1..] == longer[1..][j..];
    assert longer[i + 1..j + 1] == longer[1..][i..j];
  }

  lemma CutBack(c: char, s: string, r: string, i: nat, j: nat)
    requires IsSpace(c) && CutTo(s, r, i, j)
    ensures CutTo(s + [c], r, i, j)
  {
    hide IsSpace;
    assert (s + [c])[..i] == s[..i] && (s + [c])[j..] == s[j..] + [c] && (s + [c])[i..j] == s[i..j];
  }

  /** Trim cuts off white space and nothing else. */
  lemma {:induction false} TrimIs(s: string) returns (i: nat, j: nat)
    ensures CutTo(s, Trim(s), i, j)
    decreases |s|
  {
    hide IsSpace, CutTo;
    if s != "" && IsSpace(s[0]) {
      i, j := TrimIs(s[1..]);
      CutFront(s[0], s[1..], Trim(s), i, j);
      assert s == [s[0]] + s[1..];
      i, j := i + 1, j + 1;
    } else if s != "" && IsSpace(s[|s| - 1]) {
      i, j := TrimIs(s[..|s| - 1]);
      CutBack(s[|s| - 1], s[..|s| - 1], Trim(s), i, j);
      assert s == s[..|s| - 1] + [s[|s| - 1]];
    } else {
      i, j := 0, |s|;
      CutNothing(s);
    }
  }

  lemma CutNothing(s: string)
    ensures CutTo(s, s, 0, |s|)
  {
  }

  function Join(parts: seq<string>): string {
    if parts == [] then ""
    else if |parts| == 1 then parts[0]
    else Join(parts[..|parts| - 1]) + "+" + parts[|parts| - 1]
  }

  /** The parts in their order, with a plus sign between any two. */
  lemma {:induction false} JoinIs(parts: seq<string>)
    ensures |parts| == 1 ==> Join(parts) == parts[0]
    ensures |parts| > 1 ==> Join(parts) == parts[0] + "+" + Join(parts[1..])
    decreases |parts|
  {
    if |parts| > 1 {
      var last := |parts| - 1;
      JoinIs(parts[..last]);
      if |parts| == 2 {
        assert parts[..last] == [parts[0]] && parts[1..] == [parts[1]];
      } else {
        assert parts[..last][1..] == parts[1..][..last - 1];
        assert parts[0] + "+" + Join(parts[1..][..last - 1]) + "+" + parts[last]
            == parts[0] + "+" + (Join(parts[1..][..last - 1]) + "+" + parts[last]);
      }
    }
  }

  // ---------------------------------------------------------------- constraints

  function CreateConfiguration(info: Info, filenameBase: string, downloadPath: string): Config {
    Config(Extraction(Both, false),
           Conversions(false, "", false, "", false, false),
           Subtitles(false, "none", "", false),
           Selection(Chosen(info.bestVideo), Chosen(info.bestAudio), false, false, ""),
           Output("default", filenameBase, downloadPath, "default", "best"))
  }

  function Chosen(id: Option<string>): seq<string> {
    if id.Some? then [id.value] else []
  }

  predicate IsVideoOnly(id: string, info: Info) {
    exists f :: f in info.videoFormats && f.id == id && f.kind.VideoOnly?
  }

  function Eligible(ids: seq<string>, info: Info): seq<string> {
    if ids == [] then []
    else (if IsVideoOnly(ids[0], info) then [ids[0]] else []) + Eligible(ids[1..], info)
  }

  function FirstVideoOnly(formats: seq<Format>): Option<string> {
    if formats == [] then None
    else if formats[0].kind.VideoOnly? then Some(formats[0].id)
    else FirstVideoOnly(formats[1..])
  }

  /** What is selected when nothing eligible is: the first video-only format, unless its identifier is empty. */
  function FallbackIds(info: Info): seq<string> {
    var first := FirstVideoOnly(info.videoFormats);
    if first.Some? && first.value != "" then [first.value] else []
  }

  function FallbackLanguage(info: Info): (r: string)
    ensures r != ""
    ensures info.subtitleLanguages != [] && info.subtitleLanguages[0] != "" ==> r == info.subtitleLanguages[0]
    ensures info.subtitleLanguages == [] && info.subtitles != [] && info.subtitles[0] != "" ==> r == info.subtitles[0]
    ensures info.subtitleLanguages == [] && info.subtitles == [] ==> r == "all"
  {
    if info.subtitleLanguages != [] && info.subtitleLanguages[0] != "" then info.subtitleLanguages[0]
    else if info.subtitles != [] && info.subtitles[0] != "" then info.subtitles[0]
    else "all"
  }

  /** A language the server writes no subtitles for. */
  predicate Useless(lang: string) {
    Blank(lang) || lang == "none"
  }

  predicate PureVideo(mode: Mode, s: Selection) {
    mode.Video? || s.multiVideo
  }

  function ConstrainMode(x: Extraction): Extraction {
    match x.downloadMode
    case Audio => Extraction(Audio, true)
    case Video => Extraction(Video, false)
    case Both => if x.extractAudio then Extraction(Audio, true) else x
  }

  function ConstrainConversions(c: Conversions): Conversions {
    var remux := c.remuxCheck && !c.recodeCheck;
    Conversions(
      remux, if remux && c.remuxFormat == "" then "mp4" else c.remuxFormat,
      c.recodeCheck, if c.recodeCheck && c.recodeFormat == "" then "mp4" else c.recodeFormat,
      c.splitChapters, c.splitChapters && c.forceKeyframes)
  }

  function ConstrainSubtitles(s: Subtitles, info: Info): Subtitles {
    if s.enabled && Blank(s.custom) && Useless(s.lang) then s.(lang := FallbackLanguage(info)) else s
  }

  function ConstrainVideos(s: Selection, mode: Mode, info: Info): Selection {
    if !PureVideo(mode, s) then s
    else
      var eligible := Eligible(s.videoIds, info);
      s.(videoIds := if eligible == [] then FallbackIds(info) else if s.multiVideo then eligible else eligible[..1])
  }

  function Constrain(s: Config, info: Info): Config {
    var extraction := ConstrainMode(s.extraction);
    Config(extraction, ConstrainConversions(s.conversions), ConstrainSubtitles(s.subtitles, info),
           ConstrainVideos(s.selection, extraction.downloadMode, info), s.output)
  }

  predicate ModeOk(x: Extraction) {
    x.downloadMode.Audio? <==> x.extractAudio
  }

  predicate ConversionsOk(c: Conversions) {
    && !(c.remuxCheck && c.recodeCheck)
    && (c.remuxCheck ==> c.remuxFormat != "") && (c.recodeCheck ==> c.recodeFormat != "")
    && (c.forceKeyframes ==> c.splitChapters)
  }

  predicate SubtitlesOk(s: Subtitles, info: Info) {
    s.enabled && Blank(s.custom) && Useless(s.lang) ==> s.lang == FallbackLanguage(info)
  }

  /** Only video-only formats in video mode and with several videos. */
  ghost predicate VideosOk(s: Selection, mode: Mode, info: Info) {
    PureVideo(mode, s) ==>
      && (forall id :: id in s.videoIds ==> IsVideoOnly(id, info))
      && (s.multiVideo || |s.videoIds| <= 1)
      && (s.videoIds == [] ==> FallbackIds(info) == [])
  }

  /** The invariant of the configuration. */
  ghost predicate Constrained(s: Config, info: Info) {
    && ModeOk(s.extraction) && ConversionsOk(s.conversions) && SubtitlesOk(s.subtitles, info)
    && VideosOk(s.selection, s.extraction.downloadMode, info)
  }

  lemma {:induction false} EligibleIds(ids: seq<string>, info: Info)
    ensures forall id :: id in Eligible(ids, info) <==> id in ids && IsVideoOnly(id, info)
    ensures Eligible(ids, info) == ids <==> forall id :: id in ids ==> IsVideoOnly(id, info)
    ensures |Eligible(ids, info)| <= |ids|
  {
    if ids != [] {
      EligibleIds(ids[1..], info);
      assert ids == [ids[0]] + ids[1..];
      if Eligible(ids, info) == ids {
        assert forall id :: id in Eligible(ids, info) ==> id in ids;
      }
    }
  }

  lemma {:induction false} FallbackIsVideoOnly(info: Info)
    ensures forall id :: id in FallbackIds(info) ==> IsVideoOnly(id, info)
  {
    FirstIsVideoOnly(info.videoFormats);
  }

  lemma {:induction false} FirstIsVideoOnly(formats: seq<Format>)
    ensures FirstVideoOnly(formats).None? <==> forall f :: f in formats ==> !f.kind.VideoOnly?
    ensures FirstVideoOnly(formats).Some? ==> exists i: nat :: IsFirst(formats, i) && formats[i].id == FirstVideoOnly(formats).value
  {
    if formats != [] {
      FirstIsVideoOnly(formats[1..]);
      if formats[0].kind.VideoOnly? {
        assert IsFirst(formats, 0);
      } else if FirstVideoOnly(formats).Some? {
        var i: nat :| IsFirst(formats[1..], i) && formats[1..][i].id == FirstVideoOnly(formats).value;
        assert formats[i + 1] == formats[1..][i] && forall j :: 0 < j < i + 1 ==> formats[j] == formats[1..][j - 1];
        assert IsFirst(formats, i + 1);
      }
    }
  }

  /** The first format without audio stands at i. */
  ghost predicate IsFirst(formats: seq<Format>, i: nat) {
    i < |formats| && formats[i].kind.VideoOnly? && forall j :: 0 <= j < i ==> !formats[j].kind.VideoOnly?
  }

  /** What is selected in place of nothing: the first format without audio, if it has an identifier. */
  lemma FallbackIs(info: Info)
    ensures (forall f :: f in info.videoFormats ==> !f.kind.VideoOnly?) ==> FallbackIds(info) == []
    ensures forall i: nat :: IsFirst(info.videoFormats, i) ==>
      FallbackIds(info) == if info.videoFormats[i].id == "" then [] else [info.videoFormats[i].id]
  {
    FirstIsVideoOnly(info.videoFormats);
  }

  lemma VideosStep(s: Selection, mode: Mode, info: Info)
    ensures VideosOk(ConstrainVideos(s, mode, info), mode, info)
    ensures VideosOk(s, mode, info) ==> ConstrainVideos(s, mode, info) == s
    ensures ConstrainVideos(s, mode, info).(videoIds := s.videoIds) == s
  {
    EligibleIds(s.videoIds, info);
    FallbackIsVideoOnly(info);
  }

  /** Constraining establishes the invariant, whatever was merged in before, and changes nothing where it holds. */
  lemma ConstrainEstablishes(s: Config, info: Info)
    ensures Constrained(Constrain(s, info), info)
    ensures Constrained(s, info) ==> Constrain(s, info) == s
  {
    hide ConstrainVideos, VideosOk;
    VideosStep(s.selection, ConstrainMode(s.extraction).downloadMode, info);
  }

  /** The invariant holds exactly where constraining changes nothing. */
  lemma ConstrainedIffFixed(s: Config, info: Info)
    ensures Constrained(s, info) <==> Constrain(s, info) == s
  {
    hide Constrained, Constrain;
    ConstrainEstablishes(s, info);
  }

  lemma ConstrainIsIdempotent(s: Config, info: Info)
    ensures Constrain(Constrain(s, info), info) == Constrain(s, info)
  {
    hide Constrained, Constrain;
    ConstrainEstablishes(s, info);
    ConstrainedIffFixed(Constrain(s, info), info);
  }

  // ---------------------------------------------------------------- the reducer

  /** An assignment to one field by the user. */
  datatype Edit =
    | SetMode(mode: Mode)
    | SetExtractAudio(on: bool)
    | SetRemux(on: bool) | SetRemuxFormat(format: string)
    | SetRecode(on: bool) | SetRecodeFormat(format: string)
    | SetSplitChapters(on: bool) | SetForceKeyframes(on: bool)
    | SetSubtitles(on: bool) | SetSubtitleLang(lang: string) | SetCustomSubtitleLang(lang: string) | SetEmbedSubs(on: bool)
    | SetMultiVideo(on: bool) | SetMultiAudio(on: bool)
    | SetVideoIds(ids: seq<string>) | SetAudioIds(ids: seq<string>)
    | SetCustomFormat(format: string) | SetOutputFormat(format: string) | SetAudioFormat(format: string)

  /** `merged` is the state with the restored or the saved values in place of its own. */
  datatype Action = Restore(merged: Config) | Preset(name: string) | SavedPreset(merged: Config) | Edit(edit: Edit)

  function AssignMode(x: Extraction, e: Edit): Extraction {
    match e
    case SetMode(mode) => Extraction(mode, mode.Audio?)
    case SetExtractAudio(on) => Extraction(if on then Audio else x.downloadMode, on)
    case _ => x
  }

  function AssignConversions(c: Conversions, e: Edit): Conversions {
    match e
    case SetRemux(on) =>
      if on then c.(remuxCheck := true, recodeCheck := false, remuxFormat := if c.remuxFormat == "" then "mp4" else c.remuxFormat)
      else c.(remuxCheck := false)
    case SetRemuxFormat(format) => c.(remuxFormat := format)
    case SetRecode(on) =>
      if on then c.(recodeCheck := true, remuxCheck := false, recodeFormat := if c.recodeFormat == "" then "mp4" else c.recodeFormat)
      else c.(recodeCheck := false)
    case SetRecodeFormat(format) => c.(recodeFormat := format)
    case SetSplitChapters(on) => c.(splitChapters := on)
    case SetForceKeyframes(on) => c.(forceKeyframes := on)
    case _ => c
  }

  function AssignSubtitles(s: Subtitles, e: Edit): Subtitles {
    match e
    case SetSubtitles(on) => s.(enabled := on)
    case SetSubtitleLang(lang) => s.(lang := lang, custom := "", enabled := lang != "none")
    case SetCustomSubtitleLang(lang) => s.(custom := lang, enabled := s.enabled || !Blank(lang))
    case SetEmbedSubs(on) => s.(embed := on)
    case _ => s
  }

  function AssignSelection(s: Selection, e: Edit): Selection {
    match e
    case SetMultiVideo(on) => s.(multiVideo := on)
    case SetMultiAudio(on) => s.(multiAudio := on)
    case SetVideoIds(ids) => s.(videoIds := ids)
    case SetAudioIds(ids) => s.(audioIds := ids)
    case SetCustomFormat(format) => s.(customFormat := format)
    case _ => s
  }

  function AssignOutput(o: Output, e: Edit): Output {
    match e
    case SetOutputFormat(format) => o.(outputFormat := format, activePreset := "custom")
    case SetAudioFormat(format) => o.(audioFormat := format, activePreset := "custom")
    case _ => o.(activePreset := "custom")
  }

  /** The next state before it is constrained. */
  function Assign(s: Config, e: Edit): Config {
    Config(AssignMode(s.extraction, e), AssignConversions(s.conversions, e), AssignSubtitles(s.subtitles, e),
           AssignSelection(s.selection, e), AssignOutput(s.output, e))
  }

  function WithPreset(s: Config, name: string): Config {
    s.(output := s.output.(activePreset := name))
  }

  function PresetOf(s: Config, name: string, info: Info): Config {
    var next := WithPreset(CreateConfiguration(info, s.output.filenameBase, s.output.downloadPath), name);
    if name == "hq-mp4" then next.(output := next.output.(outputFormat := "mp4"))
    else if name == "mkv" then next.(output := next.output.(outputFormat := "mkv"))
    else if name == "mp3" then
      next.(extraction := Extraction(Audio, true), output := next.output.(audioFormat := "mp3"),
            selection := next.selection.(videoIds := []))
    else next
  }

  /** The fields a saved preset never replaces. */
  predicate KeepsOwn(merged: Config, s: Config) {
    && merged.output.filenameBase == s.output.filenameBase && merged.output.downloadPath == s.output.downloadPath
    && merged.selection.videoIds == s.selection.videoIds && merged.selection.audioIds == s.selection.audioIds
  }

  predicate Possible(s: Config, action: Action) {
    action.SavedPreset? ==> KeepsOwn(action.merged, s)
  }

  function Reduce(s: Config, action: Action, info: Info): Config {
    match action
    case Restore(merged) => Constrain(merged, info)
    case Preset(name) =>
      if name == "custom" then WithPreset(s, "custom") else Constrain(PresetOf(s, name, info), info)
    case SavedPreset(merged) => Constrain(WithPreset(merged, "custom"), info)
    case Edit(edit) => Constrain(Assign(s, edit), info)
  }

  lemma ReduceKeepsConstrained(s: Config, action: Action, info: Info)
    requires Constrained(s, info)
    ensures Constrained(Reduce(s, action, info), info)
  {
    match action
    case Restore(merged) => ConstrainEstablishes(merged, info);
    case Preset(name) =>
      if name != "custom" {
        ConstrainEstablishes(PresetOf(s, name, info), info);
      }
    case SavedPreset(merged) => ConstrainEstablishes(WithPreset(merged, "custom"), info);
    case Edit(edit) => ConstrainEstablishes(Assign(s, edit), info);
  }

  /** Each correction: extraction of audio means audio mode and only that, recoding wins over remuxing, a
      conversion has a format, chapters are cut for splitting only, and subtitles have a language. */
  lemma ConstrainIs(state: Config, info: Info, next: Config)
    requires next == Constrain(state, info)
    ensures next.extraction.downloadMode ==
      if state.extraction.downloadMode == Both && state.extraction.extractAudio then Audio else state.extraction.downloadMode
    ensures next.extraction.extractAudio <==> next.extraction.downloadMode == Audio
    ensures var c, c' := state.conversions, next.conversions;
      && c'.recodeCheck == c.recodeCheck && c'.remuxCheck == (c.remuxCheck && !c.recodeCheck)
      && c'.remuxFormat == (if c'.remuxCheck && c.remuxFormat == "" then "mp4" else c.remuxFormat)
      && c'.recodeFormat == (if c.recodeCheck && c.recodeFormat == "" then "mp4" else c.recodeFormat)
      && c'.splitChapters == c.splitChapters && c'.forceKeyframes == (c.splitChapters && c.forceKeyframes)
    ensures var u, u' := state.subtitles, next.subtitles;
      && u' == u.(lang := u'.lang)
      && u'.lang == (if u.enabled && Blank(u.custom) && (Blank(u.lang) || u.lang == "none") then FallbackLanguage(info) else u.lang)
    ensures next.output == state.output && next.selection == state.selection.(videoIds := next.selection.videoIds)
    ensures next.extraction.downloadMode != Video && !state.selection.multiVideo ==> next.selection == state.selection
  {
  }

  /** constrainConfiguration, which corrects a copy field by field. */
  method ConstrainConfiguration(state: Config, info: Info) returns (next: Config)
    ensures next == Constrain(state, info) && Constrained(next, info)
    ensures Constrained(state, info) ==> next == state
  {
    var x, c, sub, sel := state.extraction, state.conversions, state.subtitles, state.selection;
    if x.downloadMode == Audio {
      x := x.(extractAudio := true);
    }
    if x.downloadMode == Video {
      x := x.(extractAudio := false);
    }
    if x.downloadMode == Both && x.extractAudio {
      x := x.(downloadMode := Audio);
    }
    assert x == ConstrainMode(state.extraction);
    if c.remuxCheck && c.recodeCheck {
      c := c.(remuxCheck := false);
    }
    if c.remuxCheck && c.remuxFormat == "" {
      c := c.(remuxFormat := "mp4");
    }
    if c.recodeCheck && c.recodeFormat == "" {
      c := c.(recodeFormat := "mp4");
    }
    if !c.splitChapters {
      c := c.(forceKeyframes := false);
    }
    assert c == ConstrainConversions(state.conversions);
    if sub.enabled && Trim(sub.custom) == "" && (Trim(sub.lang) == "" || sub.lang == "none") {
      sub := sub.(lang := FallbackLanguage(info));
    }
    if x.downloadMode == Video || sel.multiVideo {
      var eligible := Eligible(sel.videoIds, info);
      if eligible != [] {
        sel := sel.(videoIds := if sel.multiVideo then eligible else eligible[..1]);
      } else {
        sel := sel.(videoIds := FallbackIds(info));
      }
    }
    next := Config(x, c, sub, sel, state.output);
    ConstrainEstablishes(state, info);
  }

  /** The field of the edit alone. */
  function Put(s: Config, e: Edit): Config {
    match e
    case SetMode(mode) => s.(extraction := s.extraction.(downloadMode := mode))
    case SetExtractAudio(on) => s.(extraction := s.extraction.(extractAudio := on))
    case SetRemux(on) => s.(conversions := s.conversions.(remuxCheck := on))
    case SetRemuxFormat(format) => s.(conversions := s.conversions.(remuxFormat := format))
    case SetRecode(on) => s.(conversions := s.conversions.(recodeCheck := on))
    case SetRecodeFormat(format) => s.(conversions := s.conversions.(recodeFormat := format))
    case SetSplitChapters(on) => s.(conversions := s.conversions.(splitChapters := on))
    case SetForceKeyframes(on) => s.(conversions := s.conversions.(forceKeyframes := on))
    case SetSubtitles(on) => s.(subtitles := s.subtitles.(enabled := on))
    case SetSubtitleLang(lang) => s.(subtitles := s.subtitles.(lang := lang))
    case SetCustomSubtitleLang(lang) => s.(subtitles := s.subtitles.(custom := lang))
    case SetEmbedSubs(on) => s.(subtitles := s.subtitles.(embed := on))
    case SetOutputFormat(format) => s.(output := s.output.(outputFormat := format))
    case SetAudioFormat(format) => s.(output := s.output.(audioFormat := format))
    case _ => s.(selection := AssignSelection(s.selection, e))
  }

  /** The branch of configurationReducer for a single field, before the constraints. */
  method AssignField(state: Config, e: Edit) returns (next: Config)
    ensures next == Assign(state, e)
    // The edited field, what goes with it, and nothing else.
    ensures Shows(next, e) && next.output.activePreset == "custom"
    ensures next.output.filenameBase == state.output.filenameBase && next.output.downloadPath == state.output.downloadPath
    ensures next.extraction ==
      if e.SetMode? then Extraction(e.mode, e.mode == Audio)
      else if e.SetExtractAudio? then Extraction(if e.on then Audio else state.extraction.downloadMode, e.on)
      else state.extraction
    ensures var c, c' := state.conversions, next.conversions;
      && c'.remuxCheck == (if e.SetRemux? then e.on else c.remuxCheck && !(e.SetRecode? && e.on))
      && c'.recodeCheck == (if e.SetRecode? then e.on else c.recodeCheck && !(e.SetRemux? && e.on))
      && (!e.SetRemuxFormat? ==> c'.remuxFormat == if e.SetRemux? && e.on && c.remuxFormat == "" then "mp4" else c.remuxFormat)
      && (!e.SetRecodeFormat? ==> c'.recodeFormat == if e.SetRecode? && e.on && c.recodeFormat == "" then "mp4" else c.recodeFormat)
      && (!e.SetSplitChapters? ==> c'.splitChapters == c.splitChapters)
      && (!e.SetForceKeyframes? ==> c'.forceKeyframes == c.forceKeyframes)
    ensures var u, u' := state.subtitles, next.subtitles;
      && u'.enabled == (if e.SetSubtitles? then e.on else if e.SetSubtitleLang? then e.lang != "none"
                        else u.enabled || (e.SetCustomSubtitleLang? && !Blank(e.lang)))
      && (!e.SetSubtitleLang? ==> u'.lang == u.lang)
      && (!e.SetCustomSubtitleLang? ==> u'.custom == if e.SetSubtitleLang? then "" else u.custom)
      && (!e.SetEmbedSubs? ==> u'.embed == u.embed)
    ensures var t, t' := state.selection, next.selection;
      && (!e.SetMultiVideo? ==> t'.multiVideo == t.multiVideo) && (!e.SetMultiAudio? ==> t'.multiAudio == t.multiAudio)
      && (!e.SetVideoIds? ==> t'.videoIds == t.videoIds) && (!e.SetAudioIds? ==> t'.audioIds == t.audioIds)
      && (!e.SetCustomFormat? ==> t'.customFormat == t.customFormat)
    ensures !e.SetOutputFormat? ==> next.output.outputFormat == state.output.outputFormat
    ensures !e.SetAudioFormat? ==> next.output.audioFormat == state.output.audioFormat
  {
    next := WithPreset(Put(state, e), "custom");
    if e.SetRemux? && e.on {
      next := next.(conversions := next.conversions.(recodeCheck := false));
      if next.conversions.remuxFormat == "" {
        next := next.(conversions := next.conversions.(remuxFormat := "mp4"));
      }
    } else if e.SetRecode? && e.on {
      next := next.(conversions := next.conversions.(remuxCheck := false));
      if next.conversions.recodeFormat == "" {
        next := next.(conversions := next.conversions.(recodeFormat := "mp4"));
      }
    } else if e.SetExtractAudio? && e.on {
      next := next.(extraction := next.extraction.(downloadMode := Audio));
    } else if e.SetMode? {
      next := next.(extraction := next.extraction.(extractAudio := e.mode == Audio));
    } else if e.SetSubtitleLang? {
      next := next.(subtitles := next.subtitles.(custom := "", enabled := e.lang != "none"));
    } else if e.SetCustomSubtitleLang? && Trim(e.lang) != "" {
      next := next.(subtitles := next.subtitles.(enabled := true));
    }
  }

  method ConfigurationReducer(state: Config, action: Action, info: Info) returns (next: Config)
    requires Possible(state, action)
    ensures next == Reduce(state, action, info) && (Constrained(state, info) ==> Constrained(next, info))
  {
    match action
    case Restore(merged) =>
      next := ConstrainConfiguration(merged, info);
    case Preset(name) =>
      if name == "custom" {
        next := WithPreset(state, "custom");
      } else {
        next := ConstrainConfiguration(PresetOf(state, name, info), info);
      }
    case SavedPreset(merged) =>
      next := ConstrainConfiguration(WithPreset(merged, "custom"), info);
    case Edit(edit) =>
      var edited := AssignField(state, edit);
      next := ConstrainConfiguration(edited, info);
  }

  // ---------------------------------------------------------------- runs

  /** The states of a configuration that starts fresh. */
  ghost predicate IsRun(run: seq<Config>, actions: seq<Action>, info: Info) {
    && |run| == |actions| + 1
    && (exists base, path :: run[0] == CreateConfiguration(info, base, path))
    && forall i :: 0 <= i < |actions| ==> Possible(run[i], actions[i]) && run[i + 1] == Reduce(run[i], actions[i], info)
  }

  lemma {:induction false} ReachableIsConstrained(run: seq<Config>, actions: seq<Action>, info: Info, i: nat)
    requires IsRun(run, actions, info) && i < |run|
    ensures Constrained(run[i], info)
  {
    if i > 0 {
      ReachableIsConstrained(run, actions, info, i - 1);
      ReduceKeepsConstrained(run[i - 1], actions[i - 1], info);
    }
  }

  // ---------------------------------------------------------------- options

  datatype Options = Options(
    downloadMode: Mode, formatCode: string, enableSubtitles: bool, subtitleLang: string, embedSubs: bool,
    extractAudio: bool, remuxVideo: string, recodeVideo: string, videoMultistreams: bool, audioMultistreams: bool)

  function Selector(ids: seq<string>, multi: bool, fallback: string): string {
    if ids == [] then fallback else if multi then Join(ids) else ids[0]
  }

  /** A selected format already holds audio. */
  predicate SelectsCombined(s: Selection, info: Info) {
    !s.multiVideo && exists f :: f in info.videoFormats && f.id in s.videoIds && f.kind.Combined?
  }

  function FormatCode(s: Selection, mode: Mode, info: Info): string {
    var video := Selector(s.videoIds, s.multiVideo, "bestvideo");
    var audio := Selector(s.audioIds, s.multiAudio, "bestaudio");
    if !Blank(s.customFormat) then Trim(s.customFormat)
    else match mode
         case Audio => audio + "/best"
         case Video => video
         case Both => if SelectsCombined(s, info) then video else video + "+" + audio + "/best"
  }

  function BuildOptions(s: Config, info: Info): Options {
    var mode, c, sub := s.extraction.downloadMode, s.conversions, s.subtitles;
    Options(mode, FormatCode(s.selection, mode, info), sub.enabled,
            if Blank(sub.custom) then sub.lang else Trim(sub.custom), sub.enabled && sub.embed,
            mode.Audio? || s.extraction.extractAudio,
            if c.remuxCheck then c.remuxFormat else "", if c.recodeCheck then c.recodeFormat else "",
            s.selection.multiVideo, s.selection.multiAudio)
  }

  datatype Refusal = VideoExtractsAudio | RemuxAndRecode

  /** The conflict checks at the head of BuildCommand. */
  function Conflict(o: Options): Option<Refusal> {
    var extractAudio := o.extractAudio || o.downloadMode.Audio?;
    if o.downloadMode.Video? && extractAudio then Some(VideoExtractsAudio)
    else if o.remuxVideo != "" && o.recodeVideo != "" then Some(RemuxAndRecode)
    else None
  }

  /** Whatever the user did, the server finds no conflict in the options. */
  lemma BuiltOptionsAreAccepted(run: seq<Config>, actions: seq<Action>, info: Info, i: nat)
    requires IsRun(run, actions, info) && i < |run|
    ensures Conflict(BuildOptions(run[i], info)) == None
    ensures var o := BuildOptions(run[i], info);
      && (o.extractAudio <==> o.downloadMode.Audio?)
      && (run[i].conversions.remuxCheck <==> o.remuxVideo != "") && (run[i].conversions.recodeCheck <==> o.recodeVideo != "")
  {
    ReachableIsConstrained(run, actions, info, i);
  }

  /** The pieces that a format code is joined from. */
  ghost predicate JoinedFrom(code: string, ids: seq<string>, fallback: string) {
    code == fallback || (ids != [] && (code == Join(ids) || code == ids[0]))
  }

  /** Each identifier is that of a format without audio. */
  ghost predicate OnlyVideo(ids: seq<string>, info: Info) {
    forall id :: id in ids ==> exists f :: f in info.videoFormats && f.id == id && f.kind.VideoOnly?
  }

  /** In video mode nothing but video-only formats is asked for; several videos are never combined
      formats; and a format that holds audio is never merged with more audio. */
  lemma NoAudioWhereNoneBelongs(run: seq<Config>, actions: seq<Action>, info: Info, i: nat)
    requires IsRun(run, actions, info) && i < |run| && Blank(run[i].selection.customFormat)
    ensures var o, s := BuildOptions(run[i], info), run[i].selection;
      && (o.downloadMode.Video? ==>
            exists ids :: JoinedFrom(o.formatCode, ids, "bestvideo") && OnlyVideo(ids, info))
      && (o.videoMultistreams ==> OnlyVideo(s.videoIds, info))
      && (o.downloadMode.Both? && SelectsCombined(s, info) ==> o.formatCode in s.videoIds)
  {
    ReachableIsConstrained(run, actions, info, i);
    if run[i].extraction.downloadMode.Video? {
      assert OnlyVideo(run[i].selection.videoIds, info);
      assert JoinedFrom(BuildOptions(run[i], info).formatCode, run[i].selection.videoIds, "bestvideo");
    }
  }

  /** The exact format code of every reachable configuration: the user's own text; else in audio mode the
      audio formats or the best alternative; in video mode the video formats; otherwise both, merged, or the
      one combined format. Several formats are joined, and without any the best is asked for. */
  lemma FormatCodeIs(run: seq<Config>, actions: seq<Action>, info: Info, i: nat)
    requires IsRun(run, actions, info) && i < |run|
    ensures var code, s := BuildOptions(run[i], info).formatCode, run[i].selection;
      var video := if s.videoIds == [] then "bestvideo" else if s.multiVideo then Join(s.videoIds) else s.videoIds[0];
      var audio := if s.audioIds == [] then "bestaudio" else if s.multiAudio then Join(s.audioIds) else s.audioIds[0];
      if !Blank(s.customFormat) then code == Trim(s.customFormat)
      else match run[i].extraction.downloadMode
           case Audio => code == audio + "/best"
           case Video => code == video
           case Both =>
             if !s.multiVideo && exists f :: f in info.videoFormats && f.id in s.videoIds && f.kind.Combined?
             then s.videoIds != [] && code == s.videoIds[0] else code == video + "+" + audio + "/best"
  {
    ReachableIsConstrained(run, actions, info, i);
  }

  /** The other options that the server is sent. */
  lemma BuiltOptionsAre(run: seq<Config>, actions: seq<Action>, info: Info, i: nat)
    requires IsRun(run, actions, info) && i < |run|
    ensures var o, t := BuildOptions(run[i], info), run[i];
      && o.downloadMode == t.extraction.downloadMode && (o.extractAudio <==> t.extraction.downloadMode.Audio?)
      && o.enableSubtitles == t.subtitles.enabled && (o.embedSubs <==> t.subtitles.enabled && t.subtitles.embed)
      && o.subtitleLang == (if Blank(t.subtitles.custom) then t.subtitles.lang else Trim(t.subtitles.custom))
      && o.remuxVideo == (if t.conversions.remuxCheck then t.conversions.remuxFormat else "")
      && o.recodeVideo == (if t.conversions.recodeCheck then t.conversions.recodeFormat else "")
      && o.videoMultistreams == t.selection.multiVideo && o.audioMultistreams == t.selection.multiAudio
  {
    ReachableIsConstrained(run, actions, info, i);
  }

  /** What a preset other than the custom one leaves: nothing of the earlier choices but the file name and
      the directory. */
  lemma PresetIs(s: Config, name: string, info: Info)
    requires name != "custom"
    ensures var t := Reduce(s, Preset(name), info);
      && t.output == Output(name, s.output.filenameBase, s.output.downloadPath,
                            if name == "hq-mp4" then "mp4" else if name == "mkv" then "mkv" else "default",
                            if name == "mp3" then "mp3" else "best")
      && t.extraction == (if name == "mp3" then Extraction(Audio, true) else Extraction(Both, false))
      && t.conversions == Conversions(false, "", false, "", false, false) && t.subtitles == Subtitles(false, "none", "", false)
      && t.selection == Selection(
           if name == "mp3" || info.bestVideo.None? then [] else [info.bestVideo.value],
           if info.bestAudio.None? then [] else [info.bestAudio.value], false, false, "")
  {
  }

  /** Enabled subtitles have a language to write unless the source names none or the user typed "none". */
  lemma SubtitlesHaveALanguage(run: seq<Config>, actions: seq<Action>, info: Info, i: nat)
    requires IsRun(run, actions, info) && i < |run| && run[i].subtitles.enabled
    requires !Useless(FallbackLanguage(info))
    ensures Useless(BuildOptions(run[i], info).subtitleLang) <==> Trim(run[i].subtitles.custom) == "none"
  {
    ReachableIsConstrained(run, actions, info, i);
    var custom := Trim(run[i].subtitles.custom);
    assert custom != "" ==> custom[0] in custom && !Blank(custom);
    assert Trim("none") == "none" != "";
  }

  // ---------------------------------------------------------------- edits

  /** An edit shows in the next state. */
  predicate Shows(t: Config, e: Edit) {
    match e
    case SetMode(mode) => t.extraction.downloadMode == mode
    case SetExtractAudio(on) => t.extraction.extractAudio == on
    case SetRemux(on) => t.conversions.remuxCheck == on
    case SetRemuxFormat(format) => t.conversions.remuxFormat == format
    case SetRecode(on) => t.conversions.recodeCheck == on
    case SetRecodeFormat(format) => t.conversions.recodeFormat == format
    case SetSplitChapters(on) => t.conversions.splitChapters == on
    case SetForceKeyframes(on) => t.conversions.forceKeyframes == on
    case SetSubtitles(on) => t.subtitles.enabled == on
    case SetSubtitleLang(lang) => t.subtitles.lang == lang
    case SetCustomSubtitleLang(lang) => t.subtitles.custom == lang
    case SetEmbedSubs(on) => t.subtitles.embed == on
    case SetMultiVideo(on) => t.selection.multiVideo == on
    case SetMultiAudio(on) => t.selection.multiAudio == on
    case SetVideoIds(ids) => t.selection.videoIds == ids
    case SetAudioIds(ids) => t.selection.audioIds == ids
    case SetCustomFormat(format) => t.selection.customFormat == format
    case SetOutputFormat(format) => t.output.outputFormat == format
    case SetAudioFormat(format) => t.output.audioFormat == format
  }

  /** When the constraints let an edit stand. */
  ghost predicate Allowed(s: Config, e: Edit, info: Info) {
    match e
    case SetExtractAudio(on) => on || !s.extraction.downloadMode.Audio?       // audio mode always extracts
    case SetRemuxFormat(format) => s.conversions.remuxCheck ==> format != ""
    case SetRecodeFormat(format) => s.conversions.recodeCheck ==> format != ""
    case SetForceKeyframes(on) => on ==> s.conversions.splitChapters
    case SetSubtitleLang(lang) => lang != "none" && Blank(lang) ==> lang == FallbackLanguage(info)
    case SetVideoIds(ids) => VideosOk(s.selection.(videoIds := ids), s.extraction.downloadMode, info)
    case _ => true
  }

  /** An edit stands exactly when it respects the invariant; every other edit is corrected. */
  lemma EditStandsIffAllowed(s: Config, e: Edit, info: Info)
    requires Constrained(s, info)
    ensures Shows(Reduce(s, Action.Edit(e), info), e) <==> Allowed(s, e, info)
  {
    hide ConstrainVideos, VideosOk;
    if e.SetVideoIds? {
      VideosStep(s.selection.(videoIds := e.ids), s.extraction.downloadMode, info);
    } else {
      VideosStep(AssignSelection(s.selection, e), ConstrainMode(AssignMode(s.extraction, e)).downloadMode, info);
    }
  }
}
