/**
 * The `Timer` class of the widget: a label that shows the time since a start
 * stamp fetched from the server, or, on a Pinggy tunnel, the time left until a
 * target stamp. The fetch is split at its `await`: `RefreshBegin` is what runs
 * before the request goes out, `RefreshComplete` what runs when it settles.
 * A pending one-second tick (`setTimeout`) is the flag `pending`.
 */
module Timing {
  import opened Wrappers
  import opened Numerals
  import opened Text
  import opened IntParsing
  import opened Clock
  import opened Locale

  const TimerFile := "file=static/timer.txt"
  const PinggyTimerFile := "file=static/timer-pinggy.txt"
  const PinggyHost := "a.free.pinggy.link"
  const NaNMessage := "Invalid timer value: NaN"

  /** `this.startTime`: null before any fetch, NaN after an unreadable body, else whole seconds. */
  datatype StartTime = Unset | NotANumber | Epoch(seconds: int)

  /** How a fetch settles: rejected (network failure) or with a response and its body text. */
  datatype Outcome =
    | Rejected(message: string)
    | Response(status: nat, statusText: string, body: string)
  {
    /** `response.ok`: the status is in the range 200-299. */
    predicate Ok()
      requires Response?
    {
      200 <= status <= 299
    }
  }

  /** The states of the timer. */
  datatype Phase = Idle | Connecting | Running | Stopped | Expired | Errored

  /** What one `update()` does to the label and whether it schedules the next tick. */
  datatype Repaint = Repaint(text: string, reschedule: bool)

  /** The difference in milliseconds: time left on a tunnel, time elapsed otherwise. */
  function TimeLeftMs(isPinggy: bool, start: int, nowMs: int): int {
    if isPinggy then start * 1000 - nowMs else nowMs - start * 1000
  }

  /** One `update()` at Date.now() == nowMs. */
  function Tick(t: Strings, isPinggy: bool, start: int, nowMs: int): (r: Repaint)
    ensures r.reschedule <==> !(isPinggy && start * 1000 <= nowMs)
    ensures !r.reschedule ==> r.text == t.pinggyMessage
    ensures r.reschedule && TimeLeftMs(isPinggy, start, nowMs) >= 0 ==>
      r.text == Hms(TimeLeftMs(isPinggy, start, nowMs) / 1000)
  {
    var left := TimeLeftMs(isPinggy, start, nowMs);
    if isPinggy && left <= 0 then Repaint(t.pinggyMessage, false)
    else
      var text := TimeText(left);
      if left >= 0 then TimeTextWholeSeconds(left); Repaint(text, true)
      else Repaint(text, true)
  }

  /** The message of the error thrown for a response that is not ok. */
  function StatusMessage(status: nat, statusText: string): string {
    "Error fetching timer: " + IntString(status) + " " + statusText
  }

  /** The error text names the HTTP status, whatever the status text is. */
  lemma StatusMessageNamesStatus(status: nat, statusText: string)
    ensures Contains(StatusMessage(status, statusText), IntString(status))
  {
    ContainsInfix("Error fetching timer: ", IntString(status), " " + statusText);
    assert StatusMessage(status, statusText)
      == "Error fetching timer: " + IntString(status) + (" " + statusText);
  }

  /** The error text for a 404 response names the status. */
  lemma NotFoundText(t: Strings, statusText: string)
    ensures Contains(t.error + StatusMessage(404, statusText), "404")
  {
    assert Digits(4) == "4" && Digits(40) == "40";
    assert IntString(404) == "404";
    ContainsInfix(t.error + "Error fetching timer: ", "404", " " + statusText);
    assert t.error + StatusMessage(404, statusText)
      == t.error + "Error fetching timer: " + "404" + (" " + statusText);
  }

  class Timer {
    /** The module-level record `t` selected at load time. */
    const t: Strings
    /** `this.element.innerText`. */
    var display: string
    var startTime: StartTime
    /** A tick is scheduled: `this.timeout` holds a live handle. */
    var pending: bool
    var isPinggy: bool
    /** A refresh is waiting at its `await fetch` and has not settled yet. */
    var awaiting: bool
    ghost var phase: Phase

    ghost predicate Valid()
      reads this
    {
      (awaiting <==> phase == Connecting)
      && (pending <==> phase == Running)
      && (pending ==> startTime.Epoch?)
      && (phase == Connecting ==> display == t.connecting)
      && (phase == Expired ==> isPinggy && display == t.pinggyMessage)
      && (phase == Errored ==> t.error <= display)
    }

    /** `new Timer(element, isPinggy)`: text is what the element shows already. */
    constructor(t: Strings, text: string, isPinggy: bool)
      ensures Valid() && phase == Idle
      ensures this.t == t && display == text && this.isPinggy == isPinggy
      ensures startTime == Unset && !pending && !awaiting
    {
      this.t := t;
      display := text;
      startTime := Unset;
      pending := false;
      this.isPinggy := isPinggy;
      awaiting := false;
      phase := Idle;
    }

    /**
     * `update()`: in countdown mode once the target has passed, stop and show
     * the tunnel message; otherwise show the time and schedule the next tick.
     */
    method Update(nowMs: int)
      requires Valid() && startTime.Epoch? && !awaiting
      modifies this
      ensures Valid()
      ensures startTime == old(startTime) && isPinggy == old(isPinggy) && !awaiting
      ensures var r := Tick(t, isPinggy, startTime.seconds, nowMs);
        display == r.text && pending == r.reschedule
      ensures phase == if pending then Running else Expired
    {
      var left := TimeLeftMs(isPinggy, startTime.seconds, nowMs);
      if isPinggy && left <= 0 {
        Stop();
        display := t.pinggyMessage;
        phase := Expired;
        return;
      }
      display := TimeText(left);
      pending := true;
      phase := Running;
    }

    /** `stop()`: cancel the pending tick; the label and the start stay as they are. */
    method Stop()
      requires Valid()
      modifies this`pending, this`phase
      ensures Valid() && !pending
      ensures display == old(display) && startTime == old(startTime) && isPinggy == old(isPinggy)
      ensures phase == if old(phase) == Running then Stopped else old(phase)
      ensures !old(pending) ==> phase == old(phase)
    {
      pending := false;
      if phase == Running {
        phase := Stopped;
      }
    }

    /** `refresh()` up to its `await`: returns the file the request is for. */
    method RefreshBegin(url: string) returns (timerFile: string)
      requires Valid()
      modifies this
      ensures Valid() && phase == Connecting && awaiting && !pending
      ensures display == t.connecting
      ensures isPinggy == Contains(url, PinggyHost)
      ensures timerFile == if isPinggy then PinggyTimerFile else TimerFile
      ensures startTime == old(startTime)
    {
      pending := false;
      display := t.connecting;
      isPinggy := Contains(url, PinggyHost);
      timerFile := if isPinggy then PinggyTimerFile else TimerFile;
      awaiting := true;
      phase := Connecting;
    }

    /** `start()`. */
    method Start(url: string) returns (timerFile: string)
      requires Valid()
      modifies this
      ensures Valid() && phase == Connecting && awaiting && !pending
      ensures display == t.connecting
      ensures isPinggy == Contains(url, PinggyHost)
      ensures timerFile == if isPinggy then PinggyTimerFile else TimerFile
      ensures startTime == old(startTime)
    {
      timerFile := RefreshBegin(url);
    }

    /**
     * `refresh()` after its `await`: a rejected fetch, a response that is not
     * ok or a body that parses to NaN shows the error; a number becomes the
     * start and is shown by `update()`.
     */
    method RefreshComplete(outcome: Outcome, nowMs: int)
      requires Valid() && awaiting
      modifies this
      ensures Valid() && !awaiting && isPinggy == old(isPinggy)
      ensures outcome.Rejected? ==>
        display == t.error + outcome.message && !pending
        && startTime == old(startTime) && phase == Errored
      ensures outcome.Response? && !outcome.Ok() ==>
        display == t.error + StatusMessage(outcome.status, outcome.statusText) && !pending
        && startTime == old(startTime) && phase == Errored
      ensures outcome.Response? && outcome.Ok() && ParseInt(outcome.body).None? ==>
        display == t.error + NaNMessage && !pending
        && startTime == NotANumber && phase == Errored
      ensures outcome.Response? && outcome.Ok() && ParseInt(outcome.body).Some? ==>
        var r := Tick(t, isPinggy, ParseInt(outcome.body).value, nowMs);
        startTime == Epoch(ParseInt(outcome.body).value)
        && display == r.text && pending == r.reschedule
        && phase == (if pending then Running else Expired)
    {
      awaiting := false;
      match outcome {
        case Rejected(message) =>
          display := t.error + message;
          phase := Errored;
        case Response(status, statusText, body) =>
          if !outcome.Ok() {
            display := t.error + StatusMessage(status, statusText);
            phase := Errored;
          } else {
            var parsed := ParseInt(body);
            if parsed.None? {
              startTime := NotANumber;
              display := t.error + NaNMessage;
              phase := Errored;
            } else {
              startTime := Epoch(parsed.value);
              phase := Stopped;
              Update(nowMs);
            }
          }
      }
    }
  }

  /** A fetch that settles with a 404 response leaves "404" in the label and no tick pending. */
  method NotFoundShowsStatus(tm: Timer, statusText: string, body: string, nowMs: int)
    requires tm.Valid() && tm.awaiting
    modifies tm
    ensures tm.Valid() && !tm.pending && tm.phase == Errored
    ensures Contains(tm.display, "404")
  {
    tm.RefreshComplete(Response(404, statusText, body), nowMs);
    NotFoundText(tm.t, statusText);
  }
}
