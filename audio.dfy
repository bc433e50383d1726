/** The sound effects (utils/audio.ts): a manager holding three settings, a
    fixed table that picks a tone per sound pack and event, and the shaping
    of a tone by those settings. Durations are in milliseconds, amplitudes
    and the master volume in thousandths, so the table is integer. */
module Audio {
  import opened Types

  datatype Waveform = Sine | Square | Sawtooth | Triangle

  /** The four cues the game plays. */
  datatype ToneEvent = Tick | Start | Success | Error

  /** One entry of the table: start frequency (Hz), waveform, duration (ms),
      amplitude (thousandths) and, for a glide, the frequency it ends on. */
  datatype Tone = Tone(freq: nat, wave: Waveform, durationMs: nat, amplitude: nat, endFreq: Option<nat>)

  /** What an oscillator is set to play: the glide target only when one
      applies, and the peak gain in millionths (amplitude times volume). */
  datatype Sound = Sound(wave: Waveform, startFreq: nat, glideTo: Option<nat>, durationMs: nat, peak: int)

  /** The master volume the manager starts with: 0.5. */
  const DefaultVolume: int := 500

  /** playTick, playStart, playSuccess and playError: one switch per cue on
      the pack, Arcade and Tech with their own entry, every other pack the
      Classic one. */
  function ToneFor(pack: SoundPack, event: ToneEvent): (t: Tone)
    ensures 0 < t.freq && 0 < t.durationMs && 0 < t.amplitude
    ensures event == Tick ==> t.endFreq.None?
    ensures event == Start ==> t.endFreq.Some? && t.freq < t.endFreq.value
    ensures t.endFreq.Some? ==> 0 < t.endFreq.value
  {
    match event
    case Tick =>
      (match pack
       case Arcade => Tone(1200, Square, 30, 50, None)
       case Tech => Tone(2000, Sine, 10, 80, None)
       case _ => Tone(800, Sine, 50, 100, None))
    case Start =>
      (match pack
       case Arcade => Tone(300, Square, 300, 100, Some(600))
       case Tech => Tone(1000, Sine, 100, 100, Some(1500))
       case _ => Tone(400, Sine, 200, 200, Some(800)))
    case Success =>
      (match pack
       case Arcade => Tone(880, Triangle, 400, 150, Some(1320))
       case Tech => Tone(1500, Sine, 200, 120, Some(1800))
       case _ => Tone(880, Sine, 300, 200, Some(440)))
    case Error =>
      (match pack
       case Arcade => Tone(100, Sawtooth, 300, 80, Some(50))
       case Tech => Tone(400, Square, 100, 50, Some(200))
       case _ => Tone(150, Square, 200, 100, None))
  }

  /** The Classic error is the one cue other than the ticks without a glide;
      every other Success or Error entry glides. */
  lemma GlidingEntries(pack: SoundPack, event: ToneEvent)
    ensures ToneFor(pack, event).endFreq.None? <==> event == Tick || (event == Error && pack == Classic)
  {}

  /** playTone once it is past the enabled guard: the frequency ramps to the
      end frequency only when one is given (a zero one counts as none), and
      the gain starts at the tone's amplitude scaled by the master volume. */
  function Render(tone: Tone, volume: int): (s: Sound)
    ensures s.wave == tone.wave && s.startFreq == tone.freq && s.durationMs == tone.durationMs
    ensures s.glideTo.Some? <==> tone.endFreq.Some? && tone.endFreq.value != 0
    ensures s.glideTo.Some? ==> s.glideTo == tone.endFreq
    ensures s.peak == tone.amplitude * volume
    ensures volume == 0 || tone.amplitude == 0 ==> s.peak == 0
    ensures volume > 0 && tone.amplitude > 0 ==> s.peak > 0
  {
    var glide := if tone.endFreq.Some? && tone.endFreq.value != 0 then tone.endFreq else None;
    Sound(tone.wave, tone.freq, glide, tone.durationMs, tone.amplitude * volume)
  }

  /** A louder master volume never gives a quieter peak. */
  lemma PeakMonotoneInVolume(tone: Tone, v1: int, v2: int)
    requires v1 <= v2
    ensures Render(tone, v1).peak <= Render(tone, v2).peak
  {
    assert tone.amplitude * v2 - tone.amplitude * v1 == tone.amplitude * (v2 - v1);
  }

  /** The manager of utils/audio.ts. The audio context it creates lazily is
      not modelled: a sound is described, not played. */
  class AudioManager {
    var isEnabled: bool
    var volume: int
    var currentPack: SoundPack

    /** Enabled, at half volume, with the Classic pack. */
    constructor()
      ensures isEnabled && volume == DefaultVolume && currentPack == Classic
    {
      isEnabled := true;
      volume := DefaultVolume;
      currentPack := Classic;
    }

    method Toggle(enabled: bool)
      modifies this
      ensures isEnabled == enabled
      ensures volume == old(volume) && currentPack == old(currentPack)
    {
      isEnabled := enabled;
    }

    /** The value is stored as given, without clamping. */
    method SetVolume(value: int)
      modifies this
      ensures volume == value
      ensures isEnabled == old(isEnabled) && currentPack == old(currentPack)
    {
      volume := value;
    }

    method SetSoundPack(pack: SoundPack)
      modifies this
      ensures currentPack == pack
      ensures isEnabled == old(isEnabled) && volume == old(volume)
    {
      currentPack := pack;
    }

    /** playTone: nothing while disabled, else the tone shaped by the master
      volume. */
    method PlayTone(tone: Tone) returns (s: Option<Sound>)
      ensures s.None? <==> !isEnabled
      ensures s.Some? ==> s.value == Render(tone, volume)
    {
      if !isEnabled {
        return None;
      }
      s := Some(Render(tone, volume));
    }

    /** playTick, playStart, playSuccess, playError: the current pack's entry
      for the cue, played. */
    method Play(event: ToneEvent) returns (s: Option<Sound>)
      ensures s.None? <==> !isEnabled
      ensures s.Some? ==> s.value == Render(ToneFor(currentPack, event), volume)
    {
      s := PlayTone(ToneFor(currentPack, event));
    }
  }
}
