/**
 * The in-memory log buffer of log_collector.py: a bounded deque of log entries that drops
 * its oldest entry when a new one arrives at capacity, and the logging handler that feeds it
 * every record except the access log of the web server.
 *
 * The lock is left out (every operation is one atomic step here); the timestamp and the
 * formatted message are inputs.
 */
module LogCollector {
  import opened PySemantics

  const DefaultMaxLen: nat := 1000
  const DefaultLimit: int := 500

  /** One entry: `{'time': ..., 'message': ..., 'level': ...}`. */
  datatype Entry = Entry(time: string, message: string, level: string)

  /** The last `n` elements of `s`, or all of it when it is shorter. */
  function LastN<T>(s: seq<T>, n: nat): (r: seq<T>)
    ensures |r| == if |s| < n then |s| else n
  {
    if |s| <= n then s else s[|s| - n..]
  }

  /** `deque.append` on a deque bounded by `maxlen`: at capacity the oldest entry is dropped first. */
  function Appended<T>(logs: seq<T>, e: T, maxlen: nat): seq<T> {
    if |logs| + 1 > maxlen then (logs + [e])[|logs| + 1 - maxlen..] else logs + [e]
  }

  /**
   * One append keeps the bound; with room for at least one entry the new entry is last and
   * the entries before it are the newest of the old ones, in their old order.
   */
  lemma AppendedSpec<T>(logs: seq<T>, e: T, maxlen: nat)
    requires |logs| <= maxlen
    ensures |Appended(logs, e, maxlen)| == if |logs| < maxlen then |logs| + 1 else maxlen
    ensures maxlen == 0 ==> Appended(logs, e, maxlen) == []
    ensures maxlen > 0 ==>
      var r := Appended(logs, e, maxlen);
      r[|r| - 1] == e && r[..|r| - 1] == LastN(logs, |r| - 1)
  {
    var r := Appended(logs, e, maxlen);
    if maxlen > 0 && |logs| + 1 > maxlen {
      assert r[..|r| - 1] == logs[|logs| + 1 - maxlen..];
    } else if maxlen > 0 {
      assert r[..|r| - 1] == logs;
    }
  }

  /** Appending to the window of a history gives the window of the longer history. */
  lemma AppendedWindow<T>(history: seq<T>, e: T, maxlen: nat)
    ensures Appended(LastN(history, maxlen), e, maxlen) == LastN(history + [e], maxlen)
  {
    var w := LastN(history, maxlen);
    var h := history + [e];
    if |w| + 1 > maxlen {
      assert |w| == maxlen;
      assert w + [e] == h[|h| - maxlen - 1..];
    } else {
      assert w == history;
    }
  }

  /** `logs_list[-limit:] if len(logs_list) > limit else logs_list`. */
  function Tail<T>(logs: seq<T>, limit: int): seq<T> {
    if |logs| > limit then Slice(logs, -limit, |logs|) else logs
  }

  /**
   * `get_logs(limit)`: a positive limit gives the newest `limit` entries (all when fewer are
   * held); a zero limit gives every entry, as `[-0:]` is the whole list; a negative limit
   * drops the `-limit` oldest. The result is always a suffix of the buffer.
   */
  lemma TailSpec<T>(logs: seq<T>, limit: int)
    ensures limit > 0 ==> Tail(logs, limit) == LastN(logs, limit)
    ensures limit == 0 ==> Tail(logs, limit) == logs
    ensures limit < 0 ==> Tail(logs, limit) == logs[if -limit < |logs| then -limit else |logs|..]
    ensures exists k :: 0 <= k <= |logs| && Tail(logs, limit) == logs[k..]
  {
    if |logs| > limit {
      var k := SliceSpan(|logs|, -limit, |logs|).0;
      assert Tail(logs, limit) == logs[k..];
    } else {
      assert Tail(logs, limit) == logs[0..];
    }
  }

  /** `'aiohttp.access' not in record.name`. */
  predicate Forwards(loggerName: string) {
    !Contains(loggerName, "aiohttp.access")
  }

  /**
   * `LogCollector`: the deque `logs` bounded by `maxlen`. The ghost `history` holds every
   * entry added since construction or the last `clear`, so the buffer is its newest `maxlen`.
   */
  class Collector {
    var logs: seq<Entry>
    const maxlen: nat
    ghost var history: seq<Entry>

    ghost predicate Valid()
      reads this
    {
      logs == LastN(history, maxlen)
    }

    constructor(maxlen: nat)
      ensures Valid() && this.maxlen == maxlen && logs == [] && history == []
    {
      this.maxlen := maxlen;
      logs := [];
      history := [];
    }

    /** `add_log`: one entry at the end; at capacity the oldest is dropped. */
    method AddLog(message: string, level: string, time: string)
      requires Valid()
      modifies this
      ensures Valid()
      ensures history == old(history) + [Entry(time, message, level)]
      ensures logs == Appended(old(logs), Entry(time, message, level), maxlen)
      ensures |logs| <= maxlen
    {
      AppendedWindow(history, Entry(time, message, level), maxlen);
      logs := Appended(logs, Entry(time, message, level), maxlen);
      history := history + [Entry(time, message, level)];
    }

    /** `get_logs(limit)`: reads the buffer and changes nothing. */
    method GetLogs(limit: int) returns (r: seq<Entry>)
      ensures r == Tail(logs, limit)
      ensures limit > 0 ==> r == LastN(logs, limit)
      ensures limit == 0 ==> r == logs
    {
      var list := logs;
      TailSpec(list, limit);
      r := if |list| > limit then Slice(list, -limit, |list|) else list;
    }

    /** `clear`. */
    method Clear()
      requires Valid()
      modifies this
      ensures Valid() && logs == [] && history == []
    {
      logs := [];
      history := [];
    }

    /**
     * `CollectorHandler.emit` for a record of logger `loggerName` whose formatted text is
     * `message`: added unless the logger is the web server's access log.
     */
    method Emit(loggerName: string, message: string, levelName: string, time: string)
      requires Valid()
      modifies this
      ensures Valid()
      ensures Forwards(loggerName) ==> logs == Appended(old(logs), Entry(time, message, levelName), maxlen)
      ensures !Forwards(loggerName) ==> logs == old(logs) && history == old(history)
    {
      if !Contains(loggerName, "aiohttp.access") {
        AddLog(message, levelName, time);
      }
    }
  }
}
