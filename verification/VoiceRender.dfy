/**
 * Making audio for a script of lines, one paid request per line, with a manifest of what was made.
 * A run renders what the manifest does not show as made from the current words; requests may fail
 * one by one, and the process may die before the manifest is written.
 */
module VoiceRender {
  import opened Basics

  const VOICE_ID := "C9MXee9tu78kuWq66zMt"
  const DEFAULT_MODEL := "eleven_v4"

  datatype Entry = Entry(text: string, model: string, voice: string, file: string)

  type Manifest = map<string, Entry>

  /** The lines, in the order of their ids. */
  datatype Script = Script(ids: seq<string>, words: map<string, string>)

  ghost predicate Proper(script: Script) {
    && (forall id :: id in script.ids <==> id in script.words)
    && (forall i, j | 0 <= i < j < |script.ids| :: script.ids[i] != script.ids[j])
  }

  /** What became of one request: audio stored, an answer that is no audio, or a throw before or while storing it. */
  datatype Reply = Audio | NotAudio | Unreachable | StoreFails

  type Replies = map<string, Reply>

  function ReplyTo(replies: Replies, id: string): Reply {
    if id in replies then replies[id] else Unreachable
  }

  /** What a sound file holds. */
  datatype Sound = Made(text: string, model: string, voice: string) | Torn

  function FileOf(id: string): string {
    id + ".mp3"
  }

  lemma FileOfInjective(a: string, b: string)
    ensures FileOf(a) == FileOf(b) ==> a == b
  {
    assert FileOf(a)[..|a|] == a && FileOf(b)[..|b|] == b;
  }

  // ---- which lines ----

  predicate Fresh(script: Script, m: Manifest, model: string, id: string) {
    && id in script.words && id in m
    && m[id].text == script.words[id] && m[id].model == model && m[id].voice == VOICE_ID
  }

  predicate Requested(only: Option<seq<string>>, id: string) {
    only.Some? ==> id in only.value
  }

  /** The wanted ids, in the script's order. */
  function Pick(ids: seq<string>, wanted: set<string>): (picked: seq<string>)
    ensures forall id :: id in picked <==> id in ids && id in wanted
    ensures (forall i, j | 0 <= i < j < |ids| :: ids[i] != ids[j]) ==>
              forall i, j | 0 <= i < j < |picked| :: picked[i] != picked[j]
  {
    if ids == [] then []
    else
      var last := |ids| - 1;
      Pick(ids[..last], wanted) + if ids[last] in wanted then [ids[last]] else []
  }

  /** In `s`, `x` comes somewhere before `y`. */
  predicate Before(s: seq<string>, x: string, y: string) {
    exists p, q :: 0 <= p < q < |s| && s[p] == x && s[q] == y
  }

  lemma {:induction false} PickKeepsOrder(ids: seq<string>, wanted: set<string>, i: nat, j: nat)
    requires i < j < |Pick(ids, wanted)|
    ensures Before(ids, Pick(ids, wanted)[i], Pick(ids, wanted)[j])
    decreases |ids|
  {
    var last := |ids| - 1;
    var init := Pick(ids[..last], wanted);
    if j < |init| {
      PickKeepsOrder(ids[..last], wanted, i, j);
      var p, q :| 0 <= p < q < last && ids[..last][p] == init[i] && ids[..last][q] == init[j];
      assert ids[p] == init[i] && ids[q] == init[j];
    } else {
      assert init[i] in init;
      var p :| 0 <= p < last && ids[..last][p] == init[i];
      assert ids[p] == init[i];
    }
  }

  function LinesToRender(script: Script, m: Manifest, model: string, only: Option<seq<string>>): seq<string> {
    Pick(script.ids, set id | id in script.ids && Requested(only, id) && !Fresh(script, m, model, id))
  }

  /**
   * A line is asked for exactly when it is requested and its entry is missing or made from other words, by
   * another model or in another voice; each once, in the script's order.
   */
  lemma AsksExactlyWhen(script: Script, m: Manifest, model: string, only: Option<seq<string>>, id: string)
    requires Proper(script)
    ensures var ids := LinesToRender(script, m, model, only);
            && (id in ids <==>
                  && id in script.ids && (only.None? || id in only.value)
                  && (id !in m || m[id].text != script.words[id] || m[id].model != model || m[id].voice != VOICE_ID))
            && forall i, j | 0 <= i < j < |ids| :: ids[i] != ids[j] && Before(script.ids, ids[i], ids[j])
  {
    var wanted := set id | id in script.ids && Requested(only, id) && !Fresh(script, m, model, id);
    var ids := LinesToRender(script, m, model, only);
    assert ids == Pick(script.ids, wanted);
    forall i, j | 0 <= i < j < |ids| ensures Before(script.ids, ids[i], ids[j]) {
      PickKeepsOrder(script.ids, wanted, i, j);
    }
  }

  /** The check's own idea of a line without audio: it looks at words and files, not at model or voice. */
  function StaleLines(script: Script, m: Manifest, files: set<string>): seq<string> {
    Pick(script.ids, set id | id in script.ids
        && !(id in script.words && id in m && m[id].text == script.words[id] && m[id].file in files))
  }

  // ---- what a round of requests leaves behind ----

  /** The manifest after a round: a new entry for each stored line, every other entry as it was. */
  function NewManifest(script: Script, ids: seq<string>, m: Manifest, model: string, replies: Replies): Manifest {
    if ids == [] then m
    else
      var id := ids[|ids| - 1];
      var before := NewManifest(script, ids[..|ids| - 1], m, model, replies);
      if id in script.words && ReplyTo(replies, id) == Audio
      then before[id := Entry(script.words[id], model, VOICE_ID, FileOf(id))] else before
  }

  /** What a request puts in the line's sound file; a store that fails half-way tears the file. */
  function NewSound(script: Script, model: string, replies: Replies, id: string): Option<Sound> {
    if id !in script.words then None
    else match ReplyTo(replies, id)
      case Audio => Some(Made(script.words[id], model, VOICE_ID))
      case StoreFails => Some(Torn)
      case _ => None
  }

  function NewAudio(script: Script, ids: seq<string>, audio: map<string, Sound>, model: string, replies: Replies)
      : map<string, Sound> {
    if ids == [] then audio
    else
      var id := ids[|ids| - 1];
      var before := NewAudio(script, ids[..|ids| - 1], audio, model, replies);
      var sound := NewSound(script, model, replies, id);
      if sound.Some? then before[FileOf(id) := sound.value] else before
  }

  function Failed(ids: seq<string>, replies: Replies): seq<string> {
    Pick(ids, set id | id in ids && ReplyTo(replies, id) != Audio)
  }

  /** The command line: a model of its own or the default one, and perhaps only some lines. */
  datatype Request = Check | Render(hasKey: bool, ownModel: Option<string>, only: Option<seq<string>>)
  {
    function Model(): string {
      if Render? && ownModel.Some? then ownModel.value else DEFAULT_MODEL
    }
  }

  predicate Runs(script: Script, request: Request) {
    request.Render? && request.hasKey
        && (request.only.Some? ==> forall id | id in request.only.value :: id in script.words)
  }

  class Studio {
    var manifest: Manifest
    var audio: map<string, Sound>

    constructor ()
      ensures manifest == map[] && audio == map[]
    {
      manifest, audio := map[], map[];
    }

    method RenderLines(script: Script, ids: seq<string>, model: string, replies: Replies)
        returns (m: Manifest, failed: seq<string>)
      requires forall id | id in ids :: id in script.words
      modifies this`audio
      ensures m == NewManifest(script, ids, manifest, model, replies)
      ensures audio == NewAudio(script, ids, old(audio), model, replies)
      ensures failed == Failed(ids, replies)
    {
      m, failed := manifest, [];
      var k := 0;
      while k < |ids|
        invariant k <= |ids|
        invariant m == NewManifest(script, ids[..k], manifest, model, replies)
        invariant audio == NewAudio(script, ids[..k], old(audio), model, replies)
        invariant failed == Failed(ids[..k], replies)
      {
        var id := ids[k];
        assert ids[..k + 1][..k] == ids[..k];
        FailedNext(ids, k, replies);
        match ReplyTo(replies, id) {
          case Audio =>
            audio := audio[FileOf(id) := Made(script.words[id], model, VOICE_ID)];
            m := m[id := Entry(script.words[id], model, VOICE_ID, FileOf(id))];
          case StoreFails =>
            audio := audio[FileOf(id) := Torn];
            failed := failed + [id];
          case _ =>
            failed := failed + [id];
        }
        k := k + 1;
      }
      assert ids[..k] == ids;
    }

    method Run(script: Script, request: Request, replies: Replies) returns (code: int)
      requires Proper(script)
      modifies this
      ensures !Runs(script, request) ==> manifest == old(manifest) && audio == old(audio)
      ensures Runs(script, request) ==>
                var ids := LinesToRender(script, old(manifest), request.Model(), request.only);
                && manifest == NewManifest(script, ids, old(manifest), request.Model(), replies)
                && audio == NewAudio(script, ids, old(audio), request.Model(), replies)
      ensures code == 0 <==>
                if request.Check? then StaleLines(script, old(manifest), old(audio).Keys) == []
                else (Runs(script, request)
                      && forall id | id in LinesToRender(script, old(manifest), request.Model(), request.only) ::
                          ReplyTo(replies, id) == Audio)
    {
      if request.Check? {
        return if StaleLines(script, manifest, audio.Keys) == [] then 0 else 1;
      }
      if !request.hasKey {
        return 1;
      }
      if request.only.Some? && exists id :: id in request.only.value && id !in script.words {
        return 1;
      }
      var ids := LinesToRender(script, manifest, request.Model(), request.only);
      if ids == [] {
        return 0;
      }
      var m, failed := RenderLines(script, ids, request.Model(), replies);
      FailedAll(ids, replies);
      if |failed| < |ids| {
        manifest := m;
      } else {
        NothingStored(script, ids, manifest, request.Model(), replies);
      }
      NoneFailed(ids, replies);
      code := if failed == [] then 0 else 1;
    }
  }

  lemma FailedNext(ids: seq<string>, k: nat, replies: Replies)
    requires k < |ids|
    ensures Failed(ids[..k + 1], replies) ==
              Failed(ids[..k], replies) + if ReplyTo(replies, ids[k]) != Audio then [ids[k]] else []
  {
    var all := ids[..k + 1];
    assert all[..k] == ids[..k];
    PickAgrees(ids[..k], set id | id in all && ReplyTo(replies, id) != Audio,
      set id | id in ids[..k] && ReplyTo(replies, id) != Audio);
  }

  lemma {:induction false} PickAgrees(ids: seq<string>, a: set<string>, b: set<string>)
    requires forall id | id in ids :: id in a <==> id in b
    ensures Pick(ids, a) == Pick(ids, b)
    decreases |ids|
  {
    if ids != [] {
      PickAgrees(ids[..|ids| - 1], a, b);
    }
  }

  /** As many failures as requests means that nothing was stored. */
  lemma {:induction false} FailedAll(ids: seq<string>, replies: Replies)
    ensures |Failed(ids, replies)| <= |ids|
    ensures |Failed(ids, replies)| == |ids| <==> forall id | id in ids :: ReplyTo(replies, id) != Audio
    decreases |ids|
  {
    if ids != [] {
      var last := |ids| - 1;
      FailedAll(ids[..last], replies);
      assert ids[..last + 1] == ids;
      FailedNext(ids, last, replies);
      assert ids == ids[..last] + [ids[last]];
    }
  }

  lemma NoneFailed(ids: seq<string>, replies: Replies)
    ensures Failed(ids, replies) == [] <==> forall id | id in ids :: ReplyTo(replies, id) == Audio
  {
    var failed := Failed(ids, replies);
    if failed != [] {
      assert failed[0] in failed;
    } else {
      forall id | id in ids ensures ReplyTo(replies, id) == Audio {
        assert id !in failed;
      }
    }
  }

  // ---- resuming ----

  /** Whether and how an entry or a sound changed in a round. */
  lemma {:induction false} ManifestAt(script: Script, ids: seq<string>, m: Manifest, model: string,
      replies: Replies, id: string)
    ensures var after := NewManifest(script, ids, m, model, replies);
            if id in ids && id in script.words && ReplyTo(replies, id) == Audio
            then id in after && after[id] == Entry(script.words[id], model, VOICE_ID, FileOf(id))
            else (id in after <==> id in m) && (id in m ==> after[id] == m[id])
    decreases |ids|
  {
    if ids != [] {
      var last := |ids| - 1;
      ManifestAt(script, ids[..last], m, model, replies, id);
      assert ids == ids[..last] + [ids[last]];
    }
  }

  lemma {:induction false} NothingStored(script: Script, ids: seq<string>, m: Manifest, model: string, replies: Replies)
    requires forall id | id in ids :: ReplyTo(replies, id) != Audio
    ensures NewManifest(script, ids, m, model, replies) == m
    decreases |ids|
  {
    if ids != [] {
      NothingStored(script, ids[..|ids| - 1], m, model, replies);
    }
  }

  lemma FreshAfter(script: Script, m: Manifest, model: string, only: Option<seq<string>>, replies: Replies, id: string)
    requires Proper(script) && id in script.ids
    ensures var m' := NewManifest(script, LinesToRender(script, m, model, only), m, model, replies);
            Fresh(script, m', model, id) <==>
              Fresh(script, m, model, id) || (Requested(only, id) && ReplyTo(replies, id) == Audio)
  {
    ManifestAt(script, LinesToRender(script, m, model, only), m, model, replies, id);
  }

  /**
   * The next full run with the same words and model asks exactly for the lines that needed audio and
   * did not get it: requested ones that failed and ones left out by `only`.
   */
  lemma NextRunAsksForTheRest(script: Script, m: Manifest, model: string, only: Option<seq<string>>, replies: Replies)
    requires Proper(script)
    ensures var ids := LinesToRender(script, m, model, only);
            LinesToRender(script, NewManifest(script, ids, m, model, replies), model, None) ==
              Pick(script.ids, set id | id in script.ids && !Fresh(script, m, model, id)
                  && (!Requested(only, id) || ReplyTo(replies, id) != Audio))
  {
    forall id | id in script.ids { FreshAfter(script, m, model, only, replies, id); }
    var m' := NewManifest(script, LinesToRender(script, m, model, only), m, model, replies);
    PickAgrees(script.ids, set id | id in script.ids && Requested(None, id) && !Fresh(script, m', model, id),
      set id | id in script.ids && !Fresh(script, m, model, id)
          && (!Requested(only, id) || ReplyTo(replies, id) != Audio));
  }

  lemma {:induction false} AudioAt(script: Script, ids: seq<string>, audio: map<string, Sound>, model: string,
      replies: Replies, id: string)
    requires forall i, j | 0 <= i < j < |ids| :: ids[i] != ids[j]
    ensures var after := NewAudio(script, ids, audio, model, replies);
            var f := FileOf(id);
            var sound := NewSound(script, model, replies, id);
            if id in ids && sound.Some? then f in after && after[f] == sound.value
            else (f in after <==> f in audio) && (f in audio ==> after[f] == audio[f])
    decreases |ids|
  {
    if ids != [] {
      var last := |ids| - 1;
      AudioAt(script, ids[..last], audio, model, replies, id);
      FileOfInjective(id, ids[last]);
      assert ids == ids[..last] + [ids[last]];
    }
  }

  /** Lines that were fresh keep their entry and their sound, whatever happened to the others. */
  lemma FreshLinesAreLeftAlone(script: Script, m: Manifest, audio: map<string, Sound>, model: string,
      only: Option<seq<string>>, replies: Replies, id: string)
    requires Proper(script) && Fresh(script, m, model, id)
    ensures var ids := LinesToRender(script, m, model, only);
            var m' := NewManifest(script, ids, m, model, replies);
            var audio' := NewAudio(script, ids, audio, model, replies);
            var f := FileOf(id);
            id in m' && m'[id] == m[id] && (f in audio' <==> f in audio) && (f in audio ==> audio'[f] == audio[f])
  {
    ManifestAt(script, LinesToRender(script, m, model, only), m, model, replies, id);
    AudioAt(script, LinesToRender(script, m, model, only), audio, model, replies, id);
  }

  /** A full run in which every request was answered with audio leaves nothing to ask for. */
  lemma CleanFullRunLeavesNothing(script: Script, m: Manifest, model: string, replies: Replies)
    requires Proper(script)
    ensures var ids := LinesToRender(script, m, model, None);
            var m' := NewManifest(script, ids, m, model, replies);
            LinesToRender(script, m', model, None) == [] <==> forall id | id in ids :: ReplyTo(replies, id) == Audio
  {
    var ids := LinesToRender(script, m, model, None);
    var rest := LinesToRender(script, NewManifest(script, ids, m, model, replies), model, None);
    NextRunAsksForTheRest(script, m, model, None, replies);
    forall id | id in ids && ReplyTo(replies, id) != Audio ensures rest != [] {
      assert id in rest;
    }
    if rest != [] {
      assert rest[0] in rest && rest[0] in ids;
    }
  }

  /** The check and the renderer agree that all is well exactly up to what each does not look at. */
  lemma CheckVersusRender(script: Script, m: Manifest, model: string, files: set<string>)
    requires Proper(script)
    ensures LinesToRender(script, m, model, None) == []
            && (forall id | id in script.ids && id in m :: m[id].file in files)
       <==> StaleLines(script, m, files) == [] && forall id | id in script.ids && id in m ::
           m[id].model == model && m[id].voice == VOICE_ID
  {
    var rest, stale := LinesToRender(script, m, model, None), StaleLines(script, m, files);
    if rest == [] {
      forall id | id in script.ids ensures Fresh(script, m, model, id) {
        assert id !in rest;
      }
      if stale != [] && forall id | id in script.ids && id in m :: m[id].file in files {
        assert stale[0] in stale;
      }
    }
    if stale == [] {
      forall id | id in script.ids ensures id in m && m[id].text == script.words[id] && m[id].file in files {
        assert id !in stale;
      }
      if rest != [] && forall id | id in script.ids && id in m :: m[id].model == model && m[id].voice == VOICE_ID {
        assert rest[0] in rest;
      }
    }
  }

  // ---- does a fresh line really have its sound? ----

  datatype Shelf = Shelf(manifest: Manifest, audio: map<string, Sound>)

  /**
   * A round that dies after `k` requests: their sounds are on disk, the manifest is the old one. With no `k`
   * it ends.
   */
  datatype Round = Round(script: Script, model: string, only: Option<seq<string>>, replies: Replies, dies: Option<nat>)

  /** The requests a round gets to make. */
  function Asked(s: Shelf, r: Round): seq<string> {
    var ids := LinesToRender(r.script, s.manifest, r.model, r.only);
    if r.dies.Some? && r.dies.value <= |ids| then ids[..r.dies.value] else ids
  }

  function After(s: Shelf, r: Round): Shelf {
    var asked := Asked(s, r);
    Shelf(if r.dies.Some? then s.manifest else NewManifest(r.script, asked, s.manifest, r.model, r.replies),
          NewAudio(r.script, asked, s.audio, r.model, r.replies))
  }

  function AfterAll(s: Shelf, rounds: seq<Round>): Shelf {
    if rounds == [] then s else After(AfterAll(s, rounds[..|rounds| - 1]), rounds[|rounds| - 1])
  }

  predicate Tells(s: Shelf, script: Script, model: string, id: string) {
    Fresh(script, s.manifest, model, id) ==>
      FileOf(id) in s.audio && s.audio[FileOf(id)] == Made(script.words[id], model, VOICE_ID)
  }

  /** A line that counts as fresh has on disk the sound of just those words, by that model. */
  predicate Truthful(s: Shelf, script: Script, model: string) {
    forall id | id in script.ids :: Tells(s, script, model, id)
  }

  /**
   * What makes a round spoil a fresh line: it asked for that line, for other words or another model, and left
   * a sound without its entry.
   */
  predicate Spoils(s: Shelf, r: Round, script: Script, model: string, id: string) {
    && id in Asked(s, r) && Fresh(script, s.manifest, model, id)
    && (ReplyTo(r.replies, id) == StoreFails || (r.dies.Some? && ReplyTo(r.replies, id) == Audio))
  }

  lemma RoundOnOneLine(s: Shelf, r: Round, script: Script, model: string, id: string)
    requires Proper(r.script) && Tells(s, script, model, id)
    ensures Tells(After(s, r), script, model, id) <==> !Spoils(s, r, script, model, id)
  {
    var ids, asked := LinesToRender(r.script, s.manifest, r.model, r.only), Asked(s, r);
    assert id in asked ==> id in ids && id in r.script.words && !Fresh(r.script, s.manifest, r.model, id);
    ManifestAt(r.script, asked, s.manifest, r.model, r.replies, id);
    AudioAt(r.script, asked, s.audio, r.model, r.replies, id);
  }

  /**
   * After a round for any words and model, dying or not, what counts as fresh for these words and
   * this model is what is on disk, exactly when the round spoiled none of it.
   */
  lemma TruthSurvivesExactlyWhen(s: Shelf, r: Round, script: Script, model: string)
    requires Proper(r.script) && Truthful(s, script, model)
    ensures Truthful(After(s, r), script, model) <==> forall id | id in script.ids :: !Spoils(s, r, script, model, id)
  {
    forall id | id in script.ids
      ensures Tells(After(s, r), script, model, id) <==> !Spoils(s, r, script, model, id)
    {
      RoundOnOneLine(s, r, script, model, id);
    }
  }

  /**
   * So as long as words and model stay the same, no pattern of failures, torn files, partial requests
   * and crashes makes a line count as fresh without its sound.
   */
  lemma RoundStaysTruthful(s: Shelf, r: Round)
    requires Proper(r.script) && Truthful(s, r.script, r.model)
    ensures Truthful(After(s, r), r.script, r.model)
  {
    TruthSurvivesExactlyWhen(s, r, r.script, r.model);
    forall id | id in r.script.ids ensures !Spoils(s, r, r.script, r.model, id) {
      assert id in Asked(s, r) ==> id in LinesToRender(r.script, s.manifest, r.model, r.only);
    }
  }

  lemma {:induction false} RoundsStayTruthful(s: Shelf, script: Script, model: string, rounds: seq<Round>)
    requires Proper(script) && Truthful(s, script, model)
    requires forall r | r in rounds :: r.script == script && r.model == model
    ensures Truthful(AfterAll(s, rounds), script, model)
    decreases |rounds|
  {
    if rounds != [] {
      var last := |rounds| - 1;
      RoundsStayTruthful(s, script, model, rounds[..last]);
      assert rounds[last] in rounds;
      RoundStaysTruthful(AfterAll(s, rounds[..last]), rounds[last]);
    }
  }

  /**
   * And it does happen: a run for another model that dies after storing a line's sound leaves the old
   * entry over the new sound, and a later run for the old model has nothing to ask for.
   */
  lemma CrashUnderAnotherModelSpoils(s: Shelf, r: Round, model: string, id: string)
    requires Proper(r.script) && Truthful(s, r.script, model) && LinesToRender(r.script, s.manifest, model, None) == []
    requires r.dies.Some? && id in Asked(s, r) && ReplyTo(r.replies, id) == Audio
    ensures LinesToRender(r.script, After(s, r).manifest, model, None) == [] && !Truthful(After(s, r), r.script, model)
  {
    assert id in LinesToRender(r.script, s.manifest, r.model, r.only);
    assert id !in LinesToRender(r.script, s.manifest, model, None);
    RoundOnOneLine(s, r, r.script, model, id);
  }
}
