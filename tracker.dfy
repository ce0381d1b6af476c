/**
 * `createDownloadPromise`: a pending download is watched through the
 * browser's change events and a timer. The first change event for the
 * download that is complete, carries an error or is interrupted settles it;
 * if none does, the timer settles it as a time-out. Whichever settles it
 * clears the timer and removes the listener, so nothing later has effect.
 */
module Tracker {
  import opened Wrappers

  const DOWNLOAD_TIMEOUT_MESSAGE := "下載超時，請檢查網路連線"
  const INTERRUPTED_MESSAGE := "下載被中斷"
  /** Put before an error code the table below does not know. */
  const UNKNOWN_ERROR_PREFIX := "下載失敗: "

  /** The error codes with a message of their own. */
  const ERROR_MESSAGES: map<string, string> := map[
    "FILE_FAILED" := "檔案建立失敗，請確認磁碟空間和權限",
    "NETWORK_FAILED" := "網路連線失敗，請檢查網路狀態",
    "USER_CANCELED" := "下載已被取消",
    "FILESYSTEM_ERROR" := "檔案系統錯誤，請確認儲存位置是否可寫入"]

  /**
   * One change event of `chrome.downloads.onChanged`: the download it is
   * about, the new state when the state changed, the new error code when
   * an error was reported.
   */
  datatype Delta = Delta(id: int, state: Option<string>, error: Option<string>)

  /** What the promise has become. */
  datatype Settlement = Pending | Resolved(filename: string) | Rejected(message: string)

  /** The message a download error code is rejected with. */
  function DownloadErrorMessage(code: string): string
  {
    if code in ERROR_MESSAGES then ERROR_MESSAGES[code] else UNKNOWN_ERROR_PREFIX + code
  }

  /**
   * Different error codes are told apart: no two codes are rejected with
   * the same message, so the message names the code.
   */
  lemma DownloadErrorMessageInjective(a: string, b: string)
    requires DownloadErrorMessage(a) == DownloadErrorMessage(b)
    ensures a == b
  {
    var p := UNKNOWN_ERROR_PREFIX;
    if a in ERROR_MESSAGES && b !in ERROR_MESSAGES {
      KnownIsNotUnknown(a, b);
    } else if a !in ERROR_MESSAGES && b in ERROR_MESSAGES {
      KnownIsNotUnknown(b, a);
    } else if a !in ERROR_MESSAGES {
      assert (p + a)[|p|..] == a && (p + b)[|p|..] == b;
    }
  }

  /** A known code's message never looks like the message of an unknown code. */
  lemma KnownIsNotUnknown(known: string, other: string)
    requires known in ERROR_MESSAGES
    ensures ERROR_MESSAGES[known] != UNKNOWN_ERROR_PREFIX + other
  {
    var m := UNKNOWN_ERROR_PREFIX + other;
    assert m[0] == '下' && m[2] == '失';
  }

  /**
   * The listener's decision on one change event while the promise is
   * pending. The checks run in the source's order: another download is
   * ignored, completion wins over an error, an error wins over an
   * interruption, and any other change leaves the promise pending.
   */
  function Decide(downloadId: int, filename: string, d: Delta): (r: Settlement)
    ensures d.id != downloadId ==> r == Pending
    ensures r.Resolved? <==> d.id == downloadId && d.state == Some("complete")
    ensures r.Resolved? ==> r.filename == filename
    ensures r.Rejected? <==> d.id == downloadId && d.state != Some("complete") && (d.error.Some? || d.state == Some("interrupted"))
    ensures r.Rejected? && d.error.Some? ==> r.message == DownloadErrorMessage(d.error.value)
    ensures r.Rejected? && d.error.None? ==> r.message == INTERRUPTED_MESSAGE
  {
    if d.id != downloadId then Pending
    else if d.state == Some("complete") then Resolved(filename)
    else if d.error.Some? then Rejected(DownloadErrorMessage(d.error.value))
    else if d.state == Some("interrupted") then Rejected(INTERRUPTED_MESSAGE)
    else Pending
  }

  /** A settled promise ignores every later event; a pending one follows the listener. */
  function After(downloadId: int, filename: string, s: Settlement, d: Delta): Settlement
  {
    if s.Pending? then Decide(downloadId, filename, d) else s
  }

  /** The state after the events `ds`, starting from `s`. */
  function RunFrom(downloadId: int, filename: string, s: Settlement, ds: seq<Delta>): Settlement
    decreases |ds|
  {
    if ds == [] then s else RunFrom(downloadId, filename, After(downloadId, filename, s, ds[0]), ds[1..])
  }

  /** What the timer does when it fires: a pending promise times out. */
  function TimeOut(s: Settlement): Settlement
  {
    if s.Pending? then Rejected(DOWNLOAD_TIMEOUT_MESSAGE) else s
  }

  /**
   * The promise's final value when the events `ds` arrive before the
   * timer fires.
   */
  function Settle(downloadId: int, filename: string, ds: seq<Delta>): Settlement
  {
    TimeOut(RunFrom(downloadId, filename, Pending, ds))
  }

  /** A settled promise stays settled with the same value. */
  lemma {:induction false} SettledIsFinal(downloadId: int, filename: string, s: Settlement, ds: seq<Delta>)
    requires !s.Pending?
    ensures RunFrom(downloadId, filename, s, ds) == s
    decreases |ds|
  {
    if ds != [] {
      SettledIsFinal(downloadId, filename, s, ds[1..]);
    }
  }

  /** Whether the listener settles the promise on this event. */
  predicate Decisive(downloadId: int, filename: string, d: Delta)
  {
    !Decide(downloadId, filename, d).Pending?
  }

  /**
   * The promise takes the value of the first decisive event: it stays
   * pending exactly when no event is decisive, and otherwise it is what
   * the listener decides on the first decisive one.
   */
  lemma {:induction false} RunIsFirstDecisive(downloadId: int, filename: string, ds: seq<Delta>)
    ensures RunFrom(downloadId, filename, Pending, ds).Pending? <==> forall j :: 0 <= j < |ds| ==> !Decisive(downloadId, filename, ds[j])
    ensures !RunFrom(downloadId, filename, Pending, ds).Pending? ==>
      exists k :: 0 <= k < |ds| && Decisive(downloadId, filename, ds[k])
        && (forall j :: 0 <= j < k ==> !Decisive(downloadId, filename, ds[j]))
        && RunFrom(downloadId, filename, Pending, ds) == Decide(downloadId, filename, ds[k])
    decreases |ds|
  {
    if ds != [] {
      var first := Decide(downloadId, filename, ds[0]);
      if !first.Pending? {
        SettledIsFinal(downloadId, filename, first, ds[1..]);
      } else {
        RunIsFirstDecisive(downloadId, filename, ds[1..]);
        var rest := ds[1..];
        if !RunFrom(downloadId, filename, Pending, rest).Pending? {
          var k :| 0 <= k < |rest| && Decisive(downloadId, filename, rest[k])
            && (forall j :: 0 <= j < k ==> !Decisive(downloadId, filename, rest[j]))
            && RunFrom(downloadId, filename, Pending, rest) == Decide(downloadId, filename, rest[k]);
          assert ds[k + 1] == rest[k];
          assert forall j :: 0 <= j < k + 1 ==> !Decisive(downloadId, filename, ds[j]) by {
            forall j | 0 <= j < k + 1 ensures !Decisive(downloadId, filename, ds[j]) {
              if j > 0 {
                assert ds[j] == rest[j - 1];
              }
            }
          }
        } else {
          forall j | 0 <= j < |ds| ensures !Decisive(downloadId, filename, ds[j]) {
            if j > 0 {
              assert ds[j] == rest[j - 1];
            }
          }
        }
      }
    }
  }

  /** Events may be delivered in pieces: running a concatenation runs one piece after the other. */
  lemma {:induction false} RunFromAppend(downloadId: int, filename: string, s: Settlement, a: seq<Delta>, b: seq<Delta>)
    ensures RunFrom(downloadId, filename, s, a + b) == RunFrom(downloadId, filename, RunFrom(downloadId, filename, s, a), b)
    decreases |a|
  {
    if a == [] {
      assert a + b == b;
    } else {
      assert (a + b)[1..] == a[1..] + b;
      RunFromAppend(downloadId, filename, After(downloadId, filename, s, a[0]), a[1..], b);
    }
  }

  /** Events about other downloads make no difference, wherever they arrive. */
  lemma OtherDownloadIgnored(downloadId: int, filename: string, a: seq<Delta>, d: Delta, b: seq<Delta>)
    requires d.id != downloadId
    ensures Settle(downloadId, filename, a + [d] + b) == Settle(downloadId, filename, a + b)
  {
    RunFromAppend(downloadId, filename, Pending, a + [d], b);
    RunFromAppend(downloadId, filename, Pending, a, [d]);
    RunFromAppend(downloadId, filename, Pending, a, b);
  }

  /**
   * The promise always settles, and it times out exactly when no event
   * before the timer was decisive; otherwise it is resolved with the
   * given filename or rejected with one of the listener's messages.
   */
  lemma SettleAlwaysTerminal(downloadId: int, filename: string, ds: seq<Delta>)
    ensures !Settle(downloadId, filename, ds).Pending?
    ensures Settle(downloadId, filename, ds) == Rejected(DOWNLOAD_TIMEOUT_MESSAGE)
      <==> forall j :: 0 <= j < |ds| ==> !Decisive(downloadId, filename, ds[j])
    ensures Settle(downloadId, filename, ds).Resolved? ==> Settle(downloadId, filename, ds).filename == filename
  {
    RunIsFirstDecisive(downloadId, filename, ds);
    var r := RunFrom(downloadId, filename, Pending, ds);
    if !r.Pending? {
      var k :| 0 <= k < |ds| && Decisive(downloadId, filename, ds[k]) && r == Decide(downloadId, filename, ds[k]);
      if r.Rejected? {
        var d := ds[k];
        if d.error.Some? {
          TimeoutIsNoErrorMessage(d.error.value);
        }
      }
    }
  }

  /** The time-out message is not the message of any error code. */
  lemma TimeoutIsNoErrorMessage(code: string)
    ensures DownloadErrorMessage(code) != DOWNLOAD_TIMEOUT_MESSAGE
  {
    var m := DownloadErrorMessage(code);
    if code !in ERROR_MESSAGES {
      assert m[2] == '失';
    }
  }

  /** Scenario: an error code arriving before completion rejects the download with that code's message. */
  lemma CancelledBeforeComplete(downloadId: int, filename: string)
    ensures Settle(downloadId, filename,
        [Delta(downloadId, None, Some("USER_CANCELED")), Delta(downloadId, Some("complete"), None)])
      == Rejected("下載已被取消")
  {
    var ds := [Delta(downloadId, None, Some("USER_CANCELED")), Delta(downloadId, Some("complete"), None)];
    assert DownloadErrorMessage("USER_CANCELED") == "下載已被取消";
    assert After(downloadId, filename, Pending, ds[0]) == Rejected("下載已被取消");
    SettledIsFinal(downloadId, filename, Rejected("下載已被取消"), ds[1..]);
  }

  /**
   * The object behind one `createDownloadPromise` call: whether its
   * listener is registered, whether its timer is armed, how often the
   * listener has been removed, and what the promise has become.
   */
  class DownloadTracker {
    const downloadId: int
    const filename: string
    var listening: bool
    var timerArmed: bool
    var removals: nat
    var outcome: Settlement

    /**
     * While pending, the listener is registered and the timer armed; once
     * settled, both are gone and the listener was removed exactly once.
     */
    ghost predicate Valid()
      reads this
    {
      && listening == outcome.Pending?
      && timerArmed == outcome.Pending?
      && removals == if outcome.Pending? then 0 else 1
    }

    /** The promise executor: arm the timer, then register the listener. */
    constructor (downloadId: int, filename: string)
      ensures Valid()
      ensures this.downloadId == downloadId && this.filename == filename
      ensures outcome == Pending
    {
      this.downloadId := downloadId;
      this.filename := filename;
      timerArmed := true;
      listening := true;
      removals := 0;
      outcome := Pending;
    }

    /** The browser reports a change; it reaches the listener only while the listener is registered. */
    method OnDelta(d: Delta)
      requires Valid()
      modifies this
      ensures Valid()
      ensures outcome == After(downloadId, filename, old(outcome), d)
    {
      if listening && Decisive(downloadId, filename, d) {
        timerArmed := false;
        listening := false;
        removals := removals + 1;
        outcome := Decide(downloadId, filename, d);
      }
    }

    /** The timer fires; a cleared timer never does. */
    method OnTimeout()
      requires Valid()
      modifies this
      ensures Valid()
      ensures outcome == TimeOut(old(outcome))
    {
      if timerArmed {
        timerArmed := false;
        listening := false;
        removals := removals + 1;
        outcome := Rejected(DOWNLOAD_TIMEOUT_MESSAGE);
      }
    }
  }

  /**
   * `await createDownloadPromise(downloadId, filename, 60000)` when the
   * events `ds` arrive before the timer: a fresh tracker is fed the events
   * in order and then the timer. The result is the promise's final value.
   */
  method AwaitDownload(downloadId: int, filename: string, ds: seq<Delta>) returns (o: Settlement)
    ensures o == Settle(downloadId, filename, ds)
    ensures !o.Pending?
  {
    var t := new DownloadTracker(downloadId, filename);
    var i := 0;
    while i < |ds|
      invariant 0 <= i <= |ds|
      invariant t.Valid() && t.downloadId == downloadId && t.filename == filename
      invariant RunFrom(downloadId, filename, t.outcome, ds[i..]) == RunFrom(downloadId, filename, Pending, ds)
    {
      assert ds[i..][1..] == ds[i + 1..];
      t.OnDelta(ds[i]);
      i := i + 1;
    }
    t.OnTimeout();
    o := t.outcome;
    SettleAlwaysTerminal(downloadId, filename, ds);
  }
}
