/**
 The decoder of a channel. Wanted PIDs and the playback state are recorded, and
 setState reconciles the video, audio, PCR and teletext devices with them: what
 changed is stopped, what is wanted is started, and the picture and the sound
 are set up for the state.
 */
module Decoder {

  datatype State = Stop | Pause | Play | DecoderFastForward | Trickmode | SlowMotion

  // the bits of m_changed
  const VIDEO := 0
  const AUDIO := 1
  const PCR := 2
  const TEXT := 3
  const STATE := 4

  /** The integer -1 has all bits. */
  const ALL_BITS: set<int> := set i | 0 <= i < 32

  predicate PidOk(pid: int) {
    0 <= pid < 0x1FFF
  }

  /** Sound and teletext are there in these states only. */
  predicate Sounds(s: State) {
    s == Play || s == Pause
  }

  /** A row of the state table. */
  datatype Row = Row(moving: bool, slow: int, fast: int)

  function RowOf(s: State, ratio: int): (r: Row) {
    match s
    case Stop => Row(false, 0, 0)
    case Pause => Row(false, 0, 0)
    case Play => Row(true, 0, 0)
    case DecoderFastForward => Row(true, 0, ratio)
    case Trickmode => Row(true, 0, 1)
    case SlowMotion => Row(true, ratio, 0)
  }

  /** eDVBVideo */
  class VideoDevice {
    const pid: int
    const kind: int
    var running: bool
    var frozen: bool
    var slow: int
    var fast: int

    constructor (pid: int, kind: int)
      ensures this.pid == pid && this.kind == kind && running
    {
      this.pid, this.kind, running := pid, kind, true;
      frozen, slow, fast := *, *, *;
    }

    method StopFeed()
      modifies `running
      ensures !running
    {
      running := false;
    }
  }

  /** eDVBAudio */
  class AudioDevice {
    const pid: int
    const kind: int
    var running: bool
    var frozen: bool

    constructor (pid: int, kind: int)
      ensures this.pid == pid && this.kind == kind && running
    {
      this.pid, this.kind, running := pid, kind, true;
      frozen := *;
    }

    method StopFeed()
      modifies `running
      ensures !running
    {
      running := false;
    }
  }

  /** eDVBPCR */
  class PcrDevice {
    const pid: int
    var running: bool

    constructor (pid: int)
      ensures this.pid == pid && running
    {
      this.pid, running := pid, true;
    }

    method StopFeed()
      modifies `running
      ensures !running
    {
      running := false;
    }
  }

  /** eDVBTText */
  class TextDevice {
    const pid: int
    var running: bool

    constructor (pid: int)
      ensures this.pid == pid && running
    {
      this.pid, running := pid, true;
    }

    method StopFeed()
      modifies `running
      ensures !running
    {
      running := false;
    }
  }

  class Decoder {
    var vpid: int
    var vtype: int
    var apid: int
    var atype: int
    var pcrpid: int
    var textpid: int
    var changed: set<int>
    var state: State
    var ratio: int
    var video: VideoDevice?
    var audio: AudioDevice?
    var pcr: PcrDevice?
    var text: TextDevice?

    /** A device is there exactly if it is wanted, and then it is fed with the right stream. */
    ghost predicate VideoFits()
      reads this, video
    {
      if PidOk(vpid) then video != null && video.running && video.pid == vpid && video.kind == vtype else video == null
    }

    ghost predicate AudioFits()
      reads this, audio
    {
      if PidOk(apid) && Sounds(state) then audio != null && audio.running && audio.pid == apid && audio.kind == atype
      else audio == null
    }

    ghost predicate PcrFits()
      reads this, pcr
    {
      if PidOk(pcrpid) then pcr != null && pcr.running && pcr.pid == pcrpid else pcr == null
    }

    ghost predicate TextFits()
      reads this, text
    {
      if PidOk(textpid) && Sounds(state) then text != null && text.running && text.pid == textpid else text == null
    }

    /** The picture shows what the state asks for. */
    ghost predicate PictureSet()
      reads this, video
    {
      video != null ==>
        var r := RowOf(state, ratio);
        video.frozen == !r.moving && video.slow == r.slow && video.fast == r.fast
    }

    ghost predicate SoundSet()
      reads this, audio
    {
      audio != null ==> audio.frozen == !RowOf(state, ratio).moving
    }

    /** Everything that is not marked as changed is as wanted, and the state never stays marked. */
    ghost predicate Valid()
      reads this, video, audio, pcr, text
    {
      && STATE !in changed && PictureSet() && SoundSet()
      && (VIDEO !in changed ==> VideoFits())
      && (AUDIO !in changed ==> AudioFits())
      && (PCR !in changed ==> PcrFits())
      && (TEXT !in changed ==> TextFits())
    }

    /** All five bits are clear. */
    predicate Applied()
      reads this
    {
      VIDEO !in changed && AUDIO !in changed && PCR !in changed && TEXT !in changed && STATE !in changed
    }

    /**
     Valid, but for a state that may just have been changed: audio and teletext then fit if they are wanted at all.
     */
    ghost predicate Marked()
      reads this, video, audio, pcr, text
    {
      && (STATE !in changed ==> PictureSet() && SoundSet())
      && (VIDEO !in changed ==> VideoFits())
      && (AUDIO !in changed && audio != null ==>
        PidOk(apid) && audio.running && audio.pid == apid && audio.kind == atype)
      && (PCR !in changed ==> PcrFits())
      && (TEXT !in changed && text != null ==> PidOk(textpid) && text.running && text.pid == textpid)
    }

    /**
     While marks are being worked off: what is not marked any more fits, picture and sound may still have to be set
     up.
     */
    ghost predicate Ready(marks: set<int>)
      reads this, video, audio, pcr, text
    {
      && changed <= marks
      && (STATE !in marks && VIDEO !in marks ==> PictureSet())
      && (STATE !in marks && AUDIO !in marks ==> SoundSet())
      && (VIDEO !in changed ==> VideoFits())
      && (AUDIO !in changed ==> AudioFits())
      && (PCR !in changed ==> PcrFits())
      && (TEXT !in changed ==> TextFits())
    }

    constructor ()
      ensures Valid() && state == Stop && Applied()
    {
      vpid, vtype, apid, atype, pcrpid, textpid := -1, -1, -1, -1, -1, -1;
      changed, state, ratio := {}, Stop, *;
      video, audio, pcr, text := null, null, null, null;
    }

    /** The first part of setState: mark sound and teletext if they come or go with the state. */
    method MarkSounds()
      requires Marked()
      modifies `changed
      ensures Ready(changed)
      ensures old(changed) <= changed <= old(changed) + {AUDIO, TEXT, STATE}
      ensures AUDIO in changed <==> AUDIO in old(changed) || (audio != null) != Sounds(state)
      ensures TEXT in changed <==> TEXT in old(changed) || (text != null) != Sounds(state)
    {
      var noaudio := state != Play && state != Pause;
      var nott := noaudio;
      if (noaudio && audio != null) || (audio == null && !noaudio) {
        changed := changed + {AUDIO, STATE};
      }
      if (nott && text != null) || (text == null && !nott) {
        changed := changed + {TEXT, STATE};
      }
    }

    // the second part stops what is marked

    method StopPcr(ghost marks: set<int>)
      requires Ready(marks) && changed == marks
      modifies `pcr, pcr
      ensures Ready(marks)
      ensures if PCR in changed then pcr == null && (old(pcr) != null ==> !old(pcr).running)
        else pcr == old(pcr)
    {
      if PCR in changed {
        if pcr != null {
          pcr.StopFeed();
        }
        pcr := null;
      }
    }

    method StopVideo(ghost marks: set<int>)
      requires Ready(marks) && changed == marks
      modifies `video, video
      ensures Ready(marks)
      ensures if VIDEO in changed then video == null && (old(video) != null ==> !old(video).running)
        else video == old(video)
    {
      if VIDEO in changed {
        if video != null {
          video.StopFeed();
        }
        video := null;
      }
    }

    method StopAudio(ghost marks: set<int>)
      requires Ready(marks) && changed == marks
      modifies `audio, audio
      ensures Ready(marks)
      ensures if AUDIO in changed then audio == null && (old(audio) != null ==> !old(audio).running)
        else audio == old(audio)
    {
      if AUDIO in changed {
        if audio != null {
          audio.StopFeed();
        }
        audio := null;
      }
    }

    method StopText(ghost marks: set<int>)
      requires Ready(marks) && changed == marks
      modifies `text, text
      ensures Ready(marks)
      ensures if TEXT in changed then text == null && (old(text) != null ==> !old(text).running)
        else text == old(text)
    {
      if TEXT in changed {
        if text != null {
          text.StopFeed();
        }
        text := null;
      }
    }

    method StopMarked(ghost marks: set<int>)
      requires Ready(marks) && changed == marks
      modifies `video, `audio, `pcr, `text, video, audio, pcr, text
      ensures Ready(marks)
      ensures if VIDEO in changed then video == null && (old(video) != null ==> !old(video).running)
        else video == old(video)
      ensures if AUDIO in changed then audio == null && (old(audio) != null ==> !old(audio).running)
        else audio == old(audio)
      ensures if PCR in changed then pcr == null && (old(pcr) != null ==> !old(pcr).running) else pcr == old(pcr)
      ensures if TEXT in changed then text == null && (old(text) != null ==> !old(text).running) else text == old(text)
    {
      StopPcr(marks);
      StopVideo(marks);
      StopAudio(marks);
      StopText(marks);
    }

    // the third part starts what is marked and wanted; a device stays even if its start failed

    method StartPcr(ghost marks: set<int>) returns (res: int)
      requires Ready(marks) && (PCR in changed ==> pcr == null)
      modifies `pcr, `changed
      ensures changed == old(changed) - {PCR} && (res == 0 || res == -1)
      ensures Ready(marks) && (pcr == old(pcr) || (PCR in old(changed) && fresh(pcr)))
    {
      res := 0;
      if PCR in changed {
        if pcrpid >= 0 && pcrpid < 0x1FFF {
          pcr := new PcrDevice(pcrpid);
          var failed: bool := *;
          if failed {
            res := -1;
          }
        }
        changed := changed - {PCR};
      }
    }

    method StartAudio(ghost marks: set<int>) returns (res: int)
      requires Ready(marks) && (AUDIO in changed ==> audio == null)
      modifies `audio, `changed
      ensures changed == old(changed) - {AUDIO} && (res == 0 || res == -1)
      ensures Ready(marks) && (audio == old(audio) || (AUDIO in old(changed) && fresh(audio)))
    {
      res := 0;
      if AUDIO in changed {
        if apid >= 0 && apid < 0x1FFF && Sounds(state) {
          audio := new AudioDevice(apid, atype);
          var failed: bool := *;
          if failed {
            res := -1;
          }
        }
        changed := changed - {AUDIO};
      }
    }

    method StartVideo(ghost marks: set<int>) returns (res: int)
      requires Ready(marks) && (VIDEO in changed ==> video == null)
      modifies `video, `changed
      ensures changed == old(changed) - {VIDEO} && (res == 0 || res == -1)
      ensures Ready(marks) && (video == old(video) || (VIDEO in old(changed) && fresh(video)))
    {
      res := 0;
      if VIDEO in changed {
        if vpid >= 0 && vpid < 0x1FFF {
          video := new VideoDevice(vpid, vtype);
          var failed: bool := *;
          if failed {
            res := -1;
          }
        }
        changed := changed - {VIDEO};
      }
    }

    method StartText(ghost marks: set<int>) returns (res: int)
      requires Ready(marks) && (TEXT in changed ==> text == null)
      modifies `text, `changed
      ensures changed == old(changed) - {TEXT} && (res == 0 || res == -1)
      ensures Ready(marks) && (text == old(text) || (TEXT in old(changed) && fresh(text)))
    {
      res := 0;
      if TEXT in changed {
        if textpid >= 0 && textpid < 0x1FFF && Sounds(state) {
          text := new TextDevice(textpid);
          var failed: bool := *;
          if failed {
            res := -1;
          }
        }
        changed := changed - {TEXT};
      }
    }

    method StartMarked(ghost marks: set<int>) returns (res: int)
      requires Ready(marks) && (VIDEO in changed ==> video == null) && (AUDIO in changed ==> audio == null)
      requires (PCR in changed ==> pcr == null) && (TEXT in changed ==> text == null)
      modifies `changed, `video, `audio, `pcr, `text
      ensures Ready(marks) && changed == old(changed) - {PCR} - {AUDIO} - {VIDEO} - {TEXT} && (res == 0 || res == -1)
      ensures video == old(video) || (VIDEO in old(changed) && fresh(video))
      ensures audio == old(audio) || (AUDIO in old(changed) && fresh(audio))
      ensures pcr == old(pcr) || (PCR in old(changed) && fresh(pcr))
      ensures text == old(text) || (TEXT in old(changed) && fresh(text))
    {
      var a := StartPcr(marks);
      var b := StartAudio(marks);
      var c := StartVideo(marks);
      var d := StartText(marks);
      res := if a == 0 && b == 0 && c == 0 && d == 0 then 0 else -1;
    }

    /** The last part: set picture and sound up for the state. */
    method SetUp(marks: set<int>)
      requires Ready(marks) && changed * {VIDEO, AUDIO, PCR, TEXT} == {}
      modifies `changed, video, audio
      ensures Valid() && changed == old(changed) - {STATE}
    {
      if STATE in marks || VIDEO in marks || AUDIO in marks {
        var s := RowOf(state, ratio);
        if (STATE in marks || VIDEO in marks) && video != null {
          video.slow, video.fast, video.frozen := s.slow, s.fast, !s.moving;
        }
        if (STATE in marks || AUDIO in marks) && audio != null {
          audio.frozen := !s.moving;
        }
        changed := changed - {STATE};
      }
    }

    /** What is marked is replaced by what is wanted. */
    method Replace(ghost marks: set<int>) returns (res: int)
      requires Ready(marks) && changed == marks
      modifies `changed, `video, `audio, `pcr, `text, video, audio, pcr, text
      ensures Ready(marks) && changed == marks - {PCR} - {AUDIO} - {VIDEO} - {TEXT}
      ensures video == old(video)
        || (VIDEO in marks && (video != null ==> fresh(video)) && (old(video) != null ==> !old(video).running))
      ensures audio == old(audio)
        || (AUDIO in marks && (audio != null ==> fresh(audio)) && (old(audio) != null ==> !old(audio).running))
      ensures pcr == old(pcr)
        || (PCR in marks && (pcr != null ==> fresh(pcr)) && (old(pcr) != null ==> !old(pcr).running))
      ensures text == old(text)
        || (TEXT in marks && (text != null ==> fresh(text)) && (old(text) != null ==> !old(text).running))
    {
      StopMarked(marks);
      res := StartMarked(marks);
    }

    /** setState: everything that was marked is applied, nothing else is restarted, and what is replaced was stopped. */
    method SetState() returns (res: int)
      requires Marked()
      modifies `changed, `video, `audio, `pcr, `text, video, audio, pcr, text
      ensures Valid() && changed == old(changed) - {VIDEO, AUDIO, PCR, TEXT, STATE}
      ensures VIDEO !in old(changed) ==> video == old(video)
      ensures PCR !in old(changed) ==> pcr == old(pcr)
      ensures AUDIO !in old(changed) && (old(audio) != null <==> Sounds(state)) ==> audio == old(audio)
      ensures TEXT !in old(changed) && (old(text) != null <==> Sounds(state)) ==> text == old(text)
      ensures old(video) != null && video != old(video) ==> !old(video).running
      ensures old(audio) != null && audio != old(audio) ==> !old(audio).running
      ensures old(pcr) != null && pcr != old(pcr) ==> !old(pcr).running
      ensures old(text) != null && text != old(text) ==> !old(text).running
    {
      ghost var before := changed;
      MarkSounds();
      var marks := changed;
      res := Replace(marks);
      SetUp(marks);
      WorkedOff(before, marks);
    }

    method SetVideoPid(pid: int, kind: int)
      requires Valid()
      modifies `vpid, `vtype, `changed
      ensures Valid() && vpid == pid && vtype == kind
    {
      if vpid != pid || vtype != kind {
        changed := changed + {VIDEO};
        vpid := pid;
        vtype := kind;
      }
    }

    method SetAudioPid(pid: int, kind: int)
      requires Valid()
      modifies `apid, `atype, `changed
      ensures Valid() && apid == pid && atype == kind
    {
      if apid != pid || atype != kind {
        changed := changed + {AUDIO};
        atype := kind;
        apid := pid;
      }
    }

    method SetSyncPcr(pid: int)
      requires Valid()
      modifies `pcrpid, `changed
      ensures Valid() && pcrpid == pid
    {
      if pcrpid != pid {
        changed := changed + {PCR};
        pcrpid := pid;
      }
    }

    method SetTextPid(pid: int)
      requires Valid()
      modifies `textpid, `changed
      ensures Valid() && textpid == pid
    {
      if textpid != pid {
        changed := changed + {TEXT};
        textpid := pid;
      }
    }

    /** set: apply settings, keep the state. */
    method Set() returns (res: int)
      requires Valid()
      modifies `changed, `video, `audio, `pcr, `text, video, audio, pcr, text
      ensures Valid() && Applied()
      ensures old(Applied()) ==>
                video == old(video) && audio == old(audio) && pcr == old(pcr) && text == old(text)
    {
      res := SetState();
    }

    method StartPlay() returns (res: int)
      requires Valid()
      modifies `state, `changed, `video, `audio, `pcr, `text, video, audio, pcr, text
      ensures Valid() && Applied() && state == Play
      ensures old(VIDEO !in changed) ==> video == old(video)
    {
      if state == Play {
        if changed == {} {
          return 0;
        }
      } else {
        state := Play;
        changed := changed + {STATE};
      }
      res := SetState();
    }

    /** Change to a state with a ratio, and apply everything. */
    method Enter(s: State, r: int) returns (res: int)
      requires Valid()
      modifies `state, `ratio, `changed, `video, `audio, `pcr, `text, video, audio, pcr, text
      ensures Valid() && Applied() && state == s && ratio == r
      ensures old(VIDEO !in changed) ==> video == old(video)
    {
      state, ratio := s, r;
      changed := changed + {STATE};
      res := SetState();
    }

    /** pause: pending settings are only applied if the state changes. */
    method StartPause() returns (res: int)
      requires Valid()
      modifies `state, `ratio, `changed, `video, `audio, `pcr, `text, video, audio, pcr, text
      ensures Valid() && state == Pause && ratio == old(ratio)
      ensures Applied() <==> old(Applied()) || old(state) != Pause
    {
      if state == Pause {
        return 0;
      }
      res := Enter(Pause, ratio);
    }

    method SetFastForward(skip: int) returns (res: int)
      requires Valid()
      modifies `state, `ratio, `changed, `video, `audio, `pcr, `text, video, audio, pcr, text
      ensures Valid() && state == DecoderFastForward && ratio == skip
      ensures Applied() <==> old(Applied()) || old(state) != DecoderFastForward || old(ratio) != skip
    {
      if state == DecoderFastForward && ratio == skip {
        return 0;
      }
      res := Enter(DecoderFastForward, skip);
    }

    method SetSlowMotion(repeat: int) returns (res: int)
      requires Valid()
      modifies `state, `ratio, `changed, `video, `audio, `pcr, `text, video, audio, pcr, text
      ensures Valid() && state == SlowMotion && ratio == repeat
      ensures Applied() <==> old(Applied()) || old(state) != SlowMotion || old(ratio) != repeat
    {
      if state == SlowMotion && ratio == repeat {
        return 0;
      }
      res := Enter(SlowMotion, repeat);
    }

    method SetTrickmode() returns (res: int)
      requires Valid()
      modifies `state, `ratio, `changed, `video, `audio, `pcr, `text, video, audio, pcr, text
      ensures Valid() && state == Trickmode && ratio == old(ratio)
      ensures Applied() <==> old(Applied()) || old(state) != Trickmode
    {
      if state == Trickmode {
        return 0;
      }
      res := Enter(Trickmode, ratio);
    }

    /** The end of fccDecoderStop and the destructor: without PIDs and with all bits set, no device is left. */
    method StopAll() returns (res: int)
      requires Valid()
      modifies `vpid, `apid, `pcrpid, `textpid, `changed, `video, `audio, `pcr, `text, video, audio, pcr, text
      ensures Valid() && Applied() && video == null && audio == null && pcr == null && text == null
    {
      vpid, apid, pcrpid, textpid := -1, -1, -1, -1;
      changed := ALL_BITS;
      res := SetState();
    }

    /** What the devices do. */
    ghost function Doing(): (v: View)
      reads this, video, audio, pcr, text
    {
      View(
        if video == null then Off else On(video.pid, video.kind, video.frozen, video.slow, video.fast),
        if audio == null then Off else On(audio.pid, audio.kind, audio.frozen, 0, 0),
        if pcr == null then Off else On(pcr.pid, 0, false, 0, 0),
        if text == null then Off else On(text.pid, 0, false, 0, 0))
    }
  }

  datatype DeviceView = Off | On(pid: int, kind: int, frozen: bool, slow: int, fast: int)

  datatype View = View(video: DeviceView, audio: DeviceView, pcr: DeviceView, text: DeviceView)

  /** The wanted settings. */
  datatype Settings = Settings(vpid: int, vtype: int, apid: int, atype: int, pcrpid: int, textpid: int, state: State,
      ratio: int)

  /**
   What the devices should do. The picture stands in stop and pause and moves otherwise, slowly in slow motion, and fast
   in both fast forwards, of which the one on tricks has a fixed speed. There is sound, and teletext, in play and pause
   only. A PID is wanted if it has thirteen bits and is not that of null packets.
   */
  function Wanted(s: Settings): (v: View) {
    var stands := s.state == Stop || s.state == Pause;
    var sounds := s.state == Play || s.state == Pause;
    var slow := if s.state == SlowMotion then s.ratio else 0;
    var fast := if s.state == DecoderFastForward then s.ratio else if s.state == Trickmode then 1 else 0;
    View(
      if 0 <= s.vpid < 8191 then On(s.vpid, s.vtype, stands, slow, fast) else Off,
      if 0 <= s.apid < 8191 && sounds then On(s.apid, s.atype, stands, 0, 0) else Off,
      if 0 <= s.pcrpid < 8191 then On(s.pcrpid, 0, false, 0, 0) else Off,
      if 0 <= s.textpid < 8191 && sounds then On(s.textpid, 0, false, 0, 0) else Off)
  }

  /** Also where PID changes are pending, picture and sound move or stand as the state asks. */
  lemma PictureFollowsState(d: Decoder)
    requires d.Valid()
    ensures d.video != null ==>
      && (d.video.frozen <==> d.state == Stop || d.state == Pause)
      && d.video.slow == (if d.state == SlowMotion then d.ratio else 0)
      && d.video.fast == (if d.state == DecoderFastForward then d.ratio else if d.state == Trickmode then 1 else 0)
    ensures d.audio != null ==> (d.audio.frozen <==> d.state == Stop || d.state == Pause)
  {
  }

  /** However an applied state was reached, the devices do exactly what the settings ask for. */
  lemma AppliedIsWanted(d: Decoder)
    requires d.Valid() && d.Applied()
    ensures d.Doing() == Wanted(Settings(d.vpid, d.vtype, d.apid, d.atype, d.pcrpid, d.textpid, d.state, d.ratio))
  {
  }

  lemma WorkedOff(before: set<int>, marks: set<int>)
    requires before <= marks <= before + {AUDIO, TEXT, STATE}
    ensures marks - {PCR} - {AUDIO} - {VIDEO} - {TEXT} - {STATE} == before - {VIDEO, AUDIO, PCR, TEXT, STATE}
  {
  }
}
