/**
 * The chat view of frontend/src/components/chatContainer.jsx: the composer's
 * typing debounce (an `isTyping` flag plus one idle timer of 2000 ms), the send
 * guard, the image-picker checks, the 12-hour clock shown on each bubble, and
 * the "typing…" indicator derived from the store's typing map.
 * Timers are identified by the handles `setTimeout` returns; the calls the view
 * makes to the store's `startTyping`/`stopTyping` are recorded in `signals`.
 */
module ChatContainer {
  import opened Wrappers
  import Text
  import ChatStore

  /** The idle delay after the last keystroke, in milliseconds. */
  const TypingIdleMs: nat := 2000

  /** The largest image the picker accepts, in bytes (5 MiB). */
  const MaxPickedImage: nat := 5 * 1024 * 1024
  const ImageTypeError := "Please select an image file"
  const ImageSizeError := "Image size should be less than 5MB"

  datatype TypingSignal = StartSignal | StopSignal

  /** A scheduled idle timer: its handle and its delay. */
  datatype Timer = Timer(handle: nat, delayMs: nat)

  // ---------------------------------------------------------------------------
  // The composer

  class Composer {
    var text: string
    /** The picked image as a data URL; `""` when none. */
    var imagePreview: string
    var isSending: bool
    var isTyping: bool
    /** `typingTimeoutRef.current`: the last timer scheduled; never reset once it fires. */
    var timerRef: Option<Timer>
    /** Timers scheduled and neither fired nor cleared. */
    var pending: set<Timer>
    /** The handle the next `setTimeout` returns. */
    var nextHandle: nat
    /** Calls to the store's `startTyping` / `stopTyping`, oldest first. */
    var signals: seq<TypingSignal>

    /** At most one idle timer is pending, and it is the one the ref holds. */
    ghost predicate Valid()
      reads this
    {
      && (timerRef.None? ==> pending == {})
      && (timerRef.Some? ==> pending <= {timerRef.value} && timerRef.value.handle < nextHandle)
    }

    constructor ()
      ensures Valid()
      ensures text == "" && imagePreview == "" && !isSending && !isTyping
      ensures timerRef == None && pending == {} && signals == []
    {
      text, imagePreview, isSending, isTyping := "", "", false, false;
      timerRef, pending, nextHandle, signals := None, {}, 1, [];
    }

    /**
     * `handleInputChange(value)`: the text follows the input; `startTyping` is
     * signalled only on the idle-to-typing edge; the pending timer is cleared
     * and exactly one new 2000 ms timer is scheduled.
     */
    method HandleInputChange(value: string)
      requires Valid()
      modifies this`text, this`isTyping, this`signals, this`timerRef, this`pending, this`nextHandle
      ensures Valid()
      ensures text == value && isTyping
      ensures signals == old(signals) + (if old(isTyping) then [] else [StartSignal])
      ensures timerRef == Some(Timer(old(nextHandle), TypingIdleMs))
      ensures pending == {Timer(old(nextHandle), TypingIdleMs)}
      ensures nextHandle == old(nextHandle) + 1
    {
      text := value;
      if !isTyping {
        isTyping := true;
        signals := signals + [StartSignal];
      }
      if timerRef.Some? {
        pending := pending - {timerRef.value};
      }
      var t := Timer(nextHandle, TypingIdleMs);
      nextHandle := nextHandle + 1;
      timerRef := Some(t);
      pending := pending + {t};
    }

    /** The idle timer fires: typing ends and `stopTyping` is signalled once. */
    method FireTimer(t: Timer)
      requires Valid() && t in pending
      modifies this`isTyping, this`signals, this`pending
      ensures Valid()
      ensures pending == {} && !isTyping
      ensures signals == old(signals) + [StopSignal]
    {
      pending := pending - {t};
      isTyping := false;
      signals := signals + [StopSignal];
    }

    /**
     * `handleSendMessage`, before the store's `sendMessage` is awaited: nothing
     * happens when the trimmed text is empty and no image is picked; otherwise
     * the composer is sending, typing is ended with a `stopTyping` signal when it
     * was on, and the idle timer is left pending. The data passed to the store
     * is the trimmed text (absent when empty) and the picked image.
     */
    method SendBegin() returns (data: Option<ChatStore.MessageData>)
      requires Valid()
      modifies this`isSending, this`isTyping, this`signals
      ensures Valid()
      ensures pending == old(pending) && timerRef == old(timerRef)
      ensures Text.Trim(text) == "" && imagePreview == "" ==>
                data == None && isSending == old(isSending) && isTyping == old(isTyping) && signals == old(signals)
      ensures Text.Trim(text) != "" || imagePreview != "" ==>
                && data == Some(ChatStore.MessageData(
                     if Text.Trim(text) != "" then Some(Text.Trim(text)) else None,
                     if imagePreview != "" then Some(imagePreview) else None))
                && isSending && !isTyping
                && signals == old(signals) + (if old(isTyping) then [StopSignal] else [])
    {
      var trimmed := Text.Trim(text);
      if trimmed == "" && imagePreview == "" {
        return None;
      }
      isSending := true;
      if isTyping {
        isTyping := false;
        signals := signals + [StopSignal];
      }
      data := Some(ChatStore.MessageData(
        if trimmed != "" then Some(trimmed) else None,
        if imagePreview != "" then Some(imagePreview) else None));
    }

    /**
     * `handleSendMessage`, once `sendMessage` settles: sending ends whatever the
     * outcome; the input and the picked image are cleared unless the call threw.
     */
    method SendFinish(threw: bool)
      modifies this`isSending, this`text, this`imagePreview
      ensures !isSending
      ensures threw ==> text == old(text) && imagePreview == old(imagePreview)
      ensures !threw ==> text == "" && imagePreview == ""
    {
      if !threw {
        text, imagePreview := "", "";
      }
      isSending := false;
    }

    /** The reader finished: the picked image becomes the preview. */
    method PreviewLoaded(dataUrl: string)
      modifies this`imagePreview
      ensures imagePreview == dataUrl
    {
      imagePreview := dataUrl;
    }

    /** `removeImage`. */
    method RemoveImage()
      modifies this`imagePreview
      ensures imagePreview == ""
    {
      imagePreview := "";
    }

    /** The unmount cleanup: the pending timer is cleared and `stopTyping` is signalled unconditionally. */
    method Unmount()
      requires Valid()
      modifies this`pending, this`signals
      ensures Valid()
      ensures pending == {}
      ensures signals == old(signals) + [StopSignal]
    {
      if timerRef.Some? {
        pending := pending - {timerRef.value};
      }
      signals := signals + [StopSignal];
    }
  }

  /**
   * Typing a key and sending before the idle delay passes: the send ends typing
   * with a `stopTyping`, but the idle timer is not cancelled, so when it fires a
   * second `stopTyping` follows.
   */
  method TypeThenSendSignals() returns (signals: seq<TypingSignal>, sent: bool)
    ensures sent
    ensures signals == [StartSignal, StopSignal, StopSignal]
  {
    var c := new Composer();
    c.HandleInputChange("hi");
    Text.TrimEmptyIff("hi");
    assert !Text.IsJsSpace("hi"[0]);
    var t := c.timerRef.value;
    var data := c.SendBegin();
    sent := data.Some?;
    c.FireTimer(t);
    signals := c.signals;
  }

  // ---------------------------------------------------------------------------
  // The image picker

  /**
   * `handleImageChange`: a file whose type does not start with `"image/"` is
   * refused first, then one larger than 5 MiB; anything else is read.
   */
  function ImageCheck(mimeType: string, size: nat): (r: Result<()>)
    ensures r.Ok? <==> "image/" <= mimeType && size <= MaxPickedImage
    ensures !("image/" <= mimeType) ==> r == Err(ImageTypeError)
    ensures "image/" <= mimeType && size > MaxPickedImage ==> r == Err(ImageSizeError)
  {
    if !("image/" <= mimeType) then Err(ImageTypeError)
    else if size > 5 * 1024 * 1024 then Err(ImageSizeError)
    else Ok(())
  }

  /** A file of exactly 5 MiB is accepted; one byte more is not. */
  lemma ImageCheckBoundary()
    ensures ImageCheck("image/png", 5242880).Ok?
    ensures ImageCheck("image/png", 5242881) == Err(ImageSizeError)
    ensures ImageCheck("text/plain", 10) == Err(ImageTypeError)
  {
    assert "image/" <= "image/png";
    assert !("image/" <= "text/plain") by { assert "text/plain"[0] != "image/"[0]; }
  }

  // ---------------------------------------------------------------------------
  // The message time

  /** What `new Date(timestamp)` yields in local time: hours 0..23 and minutes 0..59. */
  datatype WallClock = WallClock(hours: int, minutes: int)
  {
    predicate Valid() { 0 <= hours < 24 && 0 <= minutes < 60 }
  }

  function Digit(d: nat): (c: char)
    requires d < 10
    ensures '0' <= c <= '9'
  {
    (('0' as int) + d) as char
  }

  function DigitValue(c: char): int
  {
    (c as int) - ('0' as int)
  }

  /** `(hours % 12) || 12`. */
  function Hours12(hours: int): (h: int)
    requires 0 <= hours < 24
    ensures 1 <= h <= 12
  {
    if hours % 12 == 0 then 12 else hours % 12
  }

  /** A number from 1 to 12 in decimal, without padding. */
  function ShowHour(h: int): (s: string)
    requires 1 <= h <= 12
    ensures |s| == if h < 10 then 1 else 2
  {
    if h < 10 then [Digit(h)] else [Digit(h / 10), Digit(h % 10)]
  }

  /** `minutes.toString().padStart(2, "0")`. */
  function Pad2(m: int): (s: string)
    requires 0 <= m < 60
    ensures |s| == 2 && forall k :: 0 <= k < 2 ==> '0' <= s[k] <= '9'
  {
    [Digit(m / 10), Digit(m % 10)]
  }

  /** `formatMessageTime`: `""` for a missing timestamp, otherwise `h:mm AM` / `h:mm PM`. */
  function FormatMessageTime(t: Option<WallClock>): (s: string)
    requires t.Some? ==> t.value.Valid()
    ensures t.None? <==> s == ""
    ensures t.Some? ==> |s| == 7 || |s| == 8
    ensures t.Some? ==> s[|s| - 2..] == (if t.value.hours >= 12 then "PM" else "AM")
  {
    match t
    case None => ""
    case Some(c) =>
      ShowHour(Hours12(c.hours)) + ":" + Pad2(c.minutes) + " " + (if c.hours >= 12 then "PM" else "AM")
  }

  predicate IsDigit(c: char) { '0' <= c <= '9' }

  /** Reads a `h:mm AM` / `h:mm PM` string back into a 24-hour wall clock. */
  function ParseMessageTime(s: string): Option<WallClock>
  {
    if |s| != 7 && |s| != 8 then None
    else
      var hl := |s| - 6;
      var hourText := s[..hl];
      if !(forall k :: 0 <= k < hl ==> IsDigit(hourText[k])) then None
      else if s[hl] != ':' || s[hl + 3] != ' ' || !IsDigit(s[hl + 1]) || !IsDigit(s[hl + 2]) then None
      else if s[hl + 4..] != "AM" && s[hl + 4..] != "PM" then None
      else
        var h12 := if hl == 1 then DigitValue(s[0]) else 10 * DigitValue(s[0]) + DigitValue(s[1]);
        var mm := 10 * DigitValue(s[hl + 1]) + DigitValue(s[hl + 2]);
        if h12 < 1 || h12 > 12 then None
        else Some(WallClock(h12 % 12 + (if s[hl + 4..] == "PM" then 12 else 0), mm))
  }

  /** The shown hour is the 12-hour reading of the clock. */
  lemma ShowHourReads(h: int)
    requires 1 <= h <= 12
    ensures |ShowHour(h)| == 1 ==> DigitValue(ShowHour(h)[0]) == h
    ensures |ShowHour(h)| == 2 ==> 10 * DigitValue(ShowHour(h)[0]) + DigitValue(ShowHour(h)[1]) == h
  {
  }

  /**
   * The formatted time reads back as the clock it came from: the hour is in
   * 1..12, `PM` exactly from noon on, and the minutes are two digits.
   */
  lemma FormatParseRoundTrip(c: WallClock)
    requires c.Valid()
    ensures ParseMessageTime(FormatMessageTime(Some(c))) == Some(c)
  {
    var s := FormatMessageTime(Some(c));
    var h12 := Hours12(c.hours);
    var hs := ShowHour(h12);
    var hl := |hs|;
    assert |s| - 6 == hl;
    assert s[..hl] == hs;
    assert s[hl] == ':' && s[hl + 3] == ' ';
    assert s[hl + 1..hl + 3] == Pad2(c.minutes);
    assert s[hl + 4..] == (if c.hours >= 12 then "PM" else "AM");
    ShowHourReads(h12);
    assert forall k :: 0 <= k < hl ==> IsDigit(s[..hl][k]);
  }

  /** Two clocks that show the same text are the same clock. */
  lemma FormatInjective(a: WallClock, b: WallClock)
    requires a.Valid() && b.Valid()
    requires FormatMessageTime(Some(a)) == FormatMessageTime(Some(b))
    ensures a == b
  {
    FormatParseRoundTrip(a);
    FormatParseRoundTrip(b);
  }

  // ---------------------------------------------------------------------------
  // The typing indicator

  /** `userTyping`: the selected user is listed under our conversation key. */
  predicate UserTyping(tu: map<ChatStore.ChatId, seq<ChatStore.UserId>>, me: Option<ChatStore.UserId>, selected: Option<ChatStore.UserId>)
  {
    && me.Some? && selected.Some?
    && Text.ChatKey(me.value, selected.value) in tu
    && selected.value in tu[Text.ChatKey(me.value, selected.value)]
  }

  /**
   * The indicator turns on when the peer's `typing` arrives (the peer keys the
   * conversation from its own side) and off when its `stopTyping` arrives.
   */
  lemma PeerTypingShowsIndicator(tu: map<ChatStore.ChatId, seq<ChatStore.UserId>>, me: ChatStore.UserId, peer: ChatStore.UserId)
    requires ChatStore.TypingWellFormed(tu)
    ensures UserTyping(ChatStore.AddTyping(tu, Text.ChatKey(peer, me), peer), Some(me), Some(peer))
    ensures !UserTyping(ChatStore.RemoveTyping(tu, Text.ChatKey(peer, me), peer), Some(me), Some(peer))
  {
    Text.ChatKeySymmetric(peer, me);
    ChatStore.AddTypingMarks(tu, Text.ChatKey(peer, me), peer);
    ChatStore.RemoveTypingClears(tu, Text.ChatKey(peer, me), peer);
  }
}
