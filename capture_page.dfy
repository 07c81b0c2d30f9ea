/**
 * The view-state of `DataCapturePage` that its handlers update: the query
 * box, the recent-activity history, the output panel and the camera state.
 * React's `setState` calls become assignments to the fields; the effects of
 * one handler are taken to be applied together.
 */
module CapturePage {
  import opened Wrappers
  import Actions

  // ---------------------------------------------------------------------
  // The history list
  // ---------------------------------------------------------------------

  /** How many entries the history keeps. */
  const HistoryLimit: nat := 5

  /** `[item, ...prev.slice(0, 4)]`: the new item first, then at most four older ones in order. */
  function Pushed(h: seq<string>, item: string): (r: seq<string>)
    ensures |r| == if |h| < HistoryLimit then |h| + 1 else HistoryLimit
    ensures r[0] == item
    ensures forall i :: 1 <= i < |r| ==> r[i] == h[i - 1]
  {
    [item] + h[..if |h| < HistoryLimit - 1 then |h| else HistoryLimit - 1]
  }

  /** The history after adding `items`, first to last. */
  function PushedAll(h: seq<string>, items: seq<string>): seq<string>
    decreases |items|
  {
    if items == [] then h else PushedAll(Pushed(h, items[0]), items[1..])
  }

  /** The items newest first. */
  function Reversed(s: seq<string>): (r: seq<string>)
    ensures |r| == |s|
    ensures forall i :: 0 <= i < |s| ==> r[i] == s[|s| - 1 - i]
  {
    if s == [] then [] else Reversed(s[1..]) + [s[0]]
  }

  /** The first `n` elements, or all of them when there are fewer. */
  function Take(s: seq<string>, n: nat): (r: seq<string>)
  {
    if |s| <= n then s else s[..n]
  }

  lemma {:induction false} PushedIsTake(h: seq<string>, item: string)
    ensures Pushed(h, item) == Take([item] + h, HistoryLimit)
  {
    if |h| >= HistoryLimit - 1 {
      assert ([item] + h)[..HistoryLimit] == [item] + h[..HistoryLimit - 1];
    }
  }

  lemma {:induction false} TakeOfTake(x: seq<string>, y: seq<string>)
    ensures Take(x + Take(y, HistoryLimit), HistoryLimit) == Take(x + y, HistoryLimit)
  {
    if |y| > HistoryLimit {
      if |x| >= HistoryLimit {
        assert (x + y[..HistoryLimit])[..HistoryLimit] == x[..HistoryLimit] == (x + y)[..HistoryLimit];
      } else {
        assert (x + y[..HistoryLimit])[..HistoryLimit] == (x + y)[..HistoryLimit];
      }
    }
  }

  /**
   * Whatever the history held, after adding a series of items it holds the
   * most recent ones, newest first, followed by what was there before, cut
   * to five entries.
   */
  lemma {:induction false} HistoryKeepsMostRecent(h: seq<string>, items: seq<string>)
    requires |h| <= HistoryLimit
    ensures PushedAll(h, items) == Take(Reversed(items) + h, HistoryLimit)
    decreases |items|
  {
    if items == [] {
    } else {
      var x, rest := items[0], items[1..];
      PushedIsTake(h, x);
      HistoryKeepsMostRecent(Pushed(h, x), rest);
      TakeOfTake(Reversed(rest), [x] + h);
      assert Reversed(items) + h == Reversed(rest) + ([x] + h);
    }
  }

  // ---------------------------------------------------------------------
  // The search guard
  // ---------------------------------------------------------------------

  /** The characters `String.prototype.trim` removes: white space and line terminators. */
  predicate IsJsWhitespace(c: char)
  {
    || c == '\t' || c == '\n' || c == '\U{000B}' || c == '\U{000C}' || c == '\r' || c == ' '
    || c == '\U{00A0}' || c == '\U{1680}' || ('\U{2000}' <= c <= '\U{200A}')
    || c == '\U{2028}' || c == '\U{2029}' || c == '\U{202F}' || c == '\U{205F}'
    || c == '\U{3000}' || c == '\U{FEFF}'
  }

  function TrimStart(s: string): (r: string)
    ensures r == [] || !IsJsWhitespace(r[0])
    ensures r == [] <==> forall i :: 0 <= i < |s| ==> IsJsWhitespace(s[i])
  {
    if s != [] && IsJsWhitespace(s[0]) then TrimStart(s[1..]) else s
  }

  function TrimEnd(s: string): (r: string)
    ensures |r| <= |s| && r == s[..|r|]
    ensures s != [] && !IsJsWhitespace(s[0]) ==> r != []
  {
    if s != [] && IsJsWhitespace(s[|s| - 1]) then TrimEnd(s[..|s| - 1]) else s
  }

  /** `s.trim()`; it is empty exactly when every character of `s` is white space. */
  function Trim(s: string): (r: string)
    ensures r == [] <==> forall i :: 0 <= i < |s| ==> IsJsWhitespace(s[i])
  {
    TrimEnd(TrimStart(s))
  }

  /** `!inputValue.trim()`: the search handler returns at once. */
  predicate IsBlank(s: string)
  {
    Trim(s) == []
  }

  // ---------------------------------------------------------------------
  // The page state
  // ---------------------------------------------------------------------

  datatype CameraState = Inactive | Active | Paused

  /** What the output panel shows, for the outputs this model produces. */
  datatype OutputData = TextOutput(content: string) | ErrorOutput(content: string)

  /** `pauseCamera`: only a running camera is paused. */
  function AfterPause(s: CameraState): (r: CameraState)
    ensures s == Active ==> r == Paused
    ensures s != Active ==> r == s
  {
    if s == Active then Paused else s
  }

  /** `resumeCamera`: only a paused camera is resumed. */
  function AfterResume(s: CameraState): (r: CameraState)
    ensures s == Paused ==> r == Active
    ensures s != Paused ==> r == s
  {
    if s == Paused then Active else s
  }

  /** Pausing and resuming a running camera leaves it running; resuming and pausing a paused one leaves it paused. */
  lemma PauseResumeInverse(s: CameraState)
    ensures s != Inactive ==> AfterResume(AfterPause(s)) == Active
    ensures s != Inactive ==> AfterPause(AfterResume(s)) == Paused
    ensures s == Inactive ==> AfterResume(AfterPause(s)) == Inactive && AfterPause(AfterResume(s)) == Inactive
  {
  }

  class DataCapturePage {
    var inputValue: string
    var history: seq<string>
    var output: Option<OutputData>
    var camera: CameraState
    /** `hasCameraPermission`: None until asked. */
    var cameraPermission: Option<bool>

    /** The history never holds more than five entries. */
    ghost predicate Valid()
      reads this
    {
      |history| <= HistoryLimit
    }

    /**
     * On a page in this state, a series of `addToHistory` calls leaves the
     * newest items first, then the entries already shown, five at most.
     */
    lemma RecentHistory(items: seq<string>)
      requires Valid()
      ensures PushedAll(history, items) == Take(Reversed(items) + history, HistoryLimit)
      ensures |PushedAll(history, items)| == if |items| + |history| < HistoryLimit then |items| + |history| else HistoryLimit
    {
      HistoryKeepsMostRecent(history, items);
    }

    constructor ()
      ensures Valid()
      ensures inputValue == "" && history == [] && output == None
      ensures camera == Inactive && cameraPermission == None
    {
      inputValue := "";
      history := [];
      output := None;
      camera := Inactive;
      cameraPermission := None;
    }

    /** The query box's `onChange`. */
    method EditInput(text: string)
      requires Valid()
      modifies this
      ensures Valid()
      ensures inputValue == text
      ensures history == old(history) && output == old(output)
      ensures camera == old(camera) && cameraPermission == old(cameraPermission)
    {
      inputValue := text;
    }

    /** `addToHistory`. */
    method AddToHistory(item: string)
      requires Valid()
      modifies this
      ensures Valid()
      ensures history == Pushed(old(history), item)
      ensures inputValue == old(inputValue) && output == old(output)
      ensures camera == old(camera) && cameraPermission == old(cameraPermission)
    {
      history := Pushed(history, item);
    }

    /**
     * `handleSearch`, run to completion: a blank query does nothing; any
     * other is logged, sent to the assistant exactly once, and its answer or
     * error is shown; the box is cleared. Returns the request that was sent.
     */
    method Search(assistant: Actions.AssistantInput -> Result<Actions.AssistantOutput, Thrown>)
      returns (sent: Option<Actions.AssistantInput>)
      requires Valid()
      modifies this
      ensures Valid()
      ensures IsBlank(old(inputValue)) ==> sent.None? && unchanged(this)
      ensures !IsBlank(old(inputValue)) ==>
        var result := Actions.HandleTextQuery(old(inputValue), assistant).result;
        && sent == Some(Actions.AssistantInput(old(inputValue)))
        && history == Pushed(old(history), "Search: " + old(inputValue))
        && output == Some(if result.success then TextOutput(result.data.value) else ErrorOutput(result.error.value))
        && inputValue == ""
        && camera == old(camera) && cameraPermission == old(cameraPermission)
    {
      if IsBlank(inputValue) {
        return None;
      }
      output := None;
      AddToHistory("Search: " + inputValue);
      var handled := Actions.HandleTextQuery(inputValue, assistant);
      var result := handled.result;
      if result.success {
        output := Some(TextOutput(result.data.value));
      } else {
        output := Some(ErrorOutput(result.error.value));
      }
      inputValue := "";
      sent := handled.request;
    }

    /** `pauseCamera`. */
    method PauseCamera()
      requires Valid()
      modifies this
      ensures Valid()
      ensures camera == AfterPause(old(camera))
      ensures cameraPermission == old(cameraPermission)
      ensures inputValue == old(inputValue) && history == old(history) && output == old(output)
    {
      if camera == Active {
        camera := Paused;
      }
    }

    /** `resumeCamera`, up to the point where playback is requested. */
    method ResumeCamera()
      requires Valid()
      modifies this
      ensures Valid()
      ensures camera == AfterResume(old(camera))
      ensures cameraPermission == old(cameraPermission)
      ensures inputValue == old(inputValue) && history == old(history) && output == old(output)
    {
      if camera == Paused {
        camera := Active;
      }
    }

    /** The `catch` of the resumed playback: the camera is treated as lost. */
    method ResumeRejected()
      requires Valid()
      modifies this
      ensures Valid()
      ensures camera == Inactive && cameraPermission == Some(false)
      ensures inputValue == old(inputValue) && history == old(history) && output == old(output)
    {
      camera := Inactive;
      cameraPermission := Some(false);
    }

    /** `stopCamera`: from any state, the camera is off and permission is asked afresh. */
    method StopCamera()
      requires Valid()
      modifies this
      ensures Valid()
      ensures camera == Inactive && cameraPermission == None
      ensures inputValue == old(inputValue) && history == old(history) && output == old(output)
    {
      camera := Inactive;
      cameraPermission := None;
    }
  }
}
