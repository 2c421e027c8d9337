/**
 * The audio player of src/components/engines/Engine1/AudioPlayer.tsx: the `M:SS` time format,
 * the progress bar and the play/pause state driven by the button and the media events. Times
 * are whole seconds.
 */
module AudioPlayer {
  import opened Wrappers
  import opened JsString

  // ---------------------------------------------------------------------------------------------
  // Decimal digits

  predicate IsDigit(c: char) {
    '0' <= c <= '9'
  }

  predicate AllDigits(s: string) {
    forall i :: 0 <= i < |s| ==> IsDigit(s[i])
  }

  function DigitChar(d: nat): (c: char)
    requires d < 10
    ensures IsDigit(c)
  {
    ('0' as int + d) as char
  }

  function DigitValue(c: char): (d: nat)
    requires IsDigit(c)
    ensures d < 10
  {
    c as int - '0' as int
  }

  /** `n.toString()` for a whole number. */
  function NatToString(n: nat): (s: string)
    ensures |s| >= 1 && AllDigits(s)
    ensures n < 10 <==> |s| == 1
    decreases n
  {
    if n < 10 then [DigitChar(n)] else NatToString(n / 10) + [DigitChar(n % 10)]
  }

  /** The number a string of decimal digits denotes. */
  function DigitsValue(s: string): nat
    requires AllDigits(s)
    decreases |s|
  {
    if s == [] then 0 else DigitsValue(s[..|s| - 1]) * 10 + DigitValue(s[|s| - 1])
  }

  lemma {:induction false} NatToStringValue(n: nat)
    ensures DigitsValue(NatToString(n)) == n
    decreases n
  {
    if n >= 10 {
      var s := NatToString(n);
      NatToStringValue(n / 10);
      assert s[..|s| - 1] == NatToString(n / 10);
    }
  }

  lemma {:induction false} LeadingZeroValue(s: string)
    requires AllDigits(s)
    ensures DigitsValue("0" + s) == DigitsValue(s)
    decreases |s|
  {
    if s != [] {
      var t := "0" + s;
      assert t[..|t| - 1] == "0" + s[..|s| - 1];
      LeadingZeroValue(s[..|s| - 1]);
    }
  }

  /** `s.padStart(2, '0')`. */
  function PadStart2(s: string): string
  {
    if |s| >= 2 then s else seq(2 - |s|, _ => '0') + s
  }

  // ---------------------------------------------------------------------------------------------
  // formatTime

  /** formatTime: whole minutes, a colon, and the seconds of the minute as two digits. */
  function FormatTime(time: nat): (r: string)
    ensures |r| >= 4 && r[|r| - 3] == ':'
    ensures AllDigits(r[..|r| - 3]) && AllDigits(r[|r| - 2..])
  {
    SecondsField(time);
    NatToString(time / 60) + ":" + PadStart2(NatToString(time % 60))
  }

  /** Reads an `M:SS`-shaped string back into its minutes and seconds fields. */
  function ParseTime(s: string): Option<(nat, nat)>
  {
    var fields := Split(s, ':');
    if |fields| == 2 && fields[0] != "" && fields[1] != "" && AllDigits(fields[0]) && AllDigits(fields[1]) then
      Some((DigitsValue(fields[0]), DigitsValue(fields[1])))
    else None
  }

  /** The seconds field is always two digits, and denotes the seconds of the minute, 00 to 59. */
  lemma SecondsField(time: nat)
    ensures var sec := PadStart2(NatToString(time % 60));
      |sec| == 2 && AllDigits(sec) && DigitsValue(sec) == time % 60 && DigitsValue(sec) < 60
  {
    var s := NatToString(time % 60);
    NatToStringValue(time % 60);
    if |s| < 2 {
      assert PadStart2(s) == "0" + s;
      LeadingZeroValue(s);
    }
  }

  /**
   * The fields of formatTime read back as minutes = time div 60 and seconds = time mod 60, so
   * minutes * 60 + seconds is the time again.
   */
  lemma FormatTimeRoundTrip(time: nat)
    ensures ParseTime(FormatTime(time)) == Some((time / 60, time % 60))
    ensures var f := ParseTime(FormatTime(time)).value; f.0 * 60 + f.1 == time && f.1 < 60
  {
    var m, sec := NatToString(time / 60), PadStart2(NatToString(time % 60));
    SecondsField(time);
    NatToStringValue(time / 60);
    assert ':' !in m by {
      assert forall i :: 0 <= i < |m| ==> IsDigit(m[i]);
    }
    assert ':' !in sec by {
      assert forall i :: 0 <= i < |sec| ==> IsDigit(sec[i]);
    }
    SplitAtFirst(m, ':', sec);
    SplitWithoutSeparator(sec, ':');
    assert FormatTime(time) == m + [':'] + sec;
  }

  // ---------------------------------------------------------------------------------------------
  // Progress and the play state

  /** The progress bar width in percent: 0 unless the duration is positive. */
  function Progress(currentTime: nat, duration: nat): (p: real)
    ensures duration == 0 ==> p == 0.0
    ensures currentTime <= duration ==> 0.0 <= p <= 100.0
  {
    if duration > 0 then
      var ratio := currentTime as real / duration as real;
      assert ratio * duration as real == currentTime as real;
      assert duration > 0 && currentTime <= duration ==> ratio <= 1.0;
      ratio * 100.0
    else 0.0
  }

  /** What the player asks of the `<audio>` element. */
  datatype MediaCommand = Play | Pause

  class Player {
    /** Whether `audioRef.current` is set. */
    var hasElement: bool
    var isPlaying: bool
    var currentTime: nat
    var duration: nat
    /** The `play()` and `pause()` calls made on the element, in order. */
    var commands: seq<MediaCommand>

    constructor(hasElement: bool)
      ensures this.hasElement == hasElement
      ensures !isPlaying && currentTime == 0 && duration == 0 && commands == []
    {
      this.hasElement := hasElement;
      isPlaying, currentTime, duration, commands := false, 0, 0, [];
    }

    /** The width of the progress bar. */
    function ProgressPercent(): (p: real)
      reads this
      ensures duration == 0 ==> p == 0.0
      ensures currentTime <= duration ==> 0.0 <= p <= 100.0
    {
      Progress(currentTime, duration)
    }

    /**
     * togglePlay: without an element nothing happens; otherwise pause when playing, play when
     * not, and flip the flag, so two toggles restore it.
     */
    method TogglePlay()
      modifies this
      ensures hasElement ==> isPlaying == !old(isPlaying)
      ensures hasElement ==> commands == old(commands) + [if old(isPlaying) then Pause else Play]
      ensures !hasElement ==> isPlaying == old(isPlaying) && commands == old(commands)
      ensures hasElement == old(hasElement) && currentTime == old(currentTime) && duration == old(duration)
    {
      if !hasElement {
        return;
      }
      if isPlaying {
        commands := commands + [Pause];
      } else {
        commands := commands + [Play];
      }
      isPlaying := !isPlaying;
    }

    /** The `ended` event. */
    method Ended()
      modifies this
      ensures !isPlaying
      ensures hasElement == old(hasElement) && currentTime == old(currentTime) && duration == old(duration)
      ensures commands == old(commands)
    {
      isPlaying := false;
    }

    /** The `timeupdate` event. */
    method TimeUpdate(time: nat)
      modifies this
      ensures currentTime == time
      ensures hasElement == old(hasElement) && isPlaying == old(isPlaying) && duration == old(duration)
      ensures commands == old(commands)
    {
      currentTime := time;
    }

    /** The `durationchange` event. */
    method DurationChange(newDuration: nat)
      modifies this
      ensures duration == newDuration
      ensures hasElement == old(hasElement) && isPlaying == old(isPlaying) && currentTime == old(currentTime)
      ensures commands == old(commands)
    {
      duration := newDuration;
    }
  }
}
