/** The diagnostic protocol of the binding: errfunc collects the engine's
    messages in a Lua table at the top of the stack, and throw_err turns
    that table into the message it returns after `false`. */
module Diagnostics {
  import opened Wrappers

  /** The value at the top of the Lua stack, as errfunc and throw_err see
      it: Some(entries) when it is a table (entries 1..n, in order),
      None when it is anything else. */
  type Log = Option<seq<string>>

  /** The entries of the diagnostic table; no table has none. */
  function Entries(log: Log): seq<string> {
    if log.Some? then log.value else []
  }

  /** errfunc: the table after one message (a fresh table when the top
      of the stack was not one). */
  function Logged(log: Log, msg: string): Log {
    Some(Entries(log) + [msg])
  }

  /** The table after errfunc has run once per message, in order. */
  function Emitted(log: Log, msgs: seq<string>): Log
    decreases |msgs|
  {
    if msgs == [] then log else Emitted(Logged(log, msgs[0]), msgs[1..])
  }

  /** errfunc appends: earlier entries stay, the new messages follow in
      emission order, and a table exists once anything was emitted. */
  lemma {:induction false} EmittedAppends(log: Log, msgs: seq<string>)
    ensures Emitted(log, msgs) == if msgs == [] then log else Some(Entries(log) + msgs)
    decreases |msgs|
  {
    if msgs != [] {
      var rest := msgs[1..];
      EmittedAppends(Logged(log, msgs[0]), rest);
      assert Emitted(log, msgs) == Emitted(Logged(log, msgs[0]), rest);
      if rest == [] {
        assert msgs == [msgs[0]];
      } else {
        assert [msgs[0]] + rest == msgs;
        assert Entries(log) + [msgs[0]] + rest == Entries(log) + msgs;
      }
    }
  }

  /** Emitting in two rounds is emitting everything in one. */
  lemma EmittedConcat(log: Log, a: seq<string>, b: seq<string>)
    ensures Emitted(Emitted(log, a), b) == Emitted(log, a + b)
  {
    EmittedAppends(log, a);
    EmittedAppends(Emitted(log, a), b);
    EmittedAppends(log, a + b);
    if a == [] {
      assert a + b == b;
    } else if b != [] {
      assert Entries(log) + a + b == Entries(log) + (a + b);
    } else {
      assert a + b == a;
    }
  }

  /** The message throw_err builds from entries 1..n: each entry followed
      by a newline. */
  function Joined(entries: seq<string>): string {
    if entries == [] then ""
    else Joined(entries[..|entries| - 1]) + entries[|entries| - 1] + "\n"
  }

  /** What throw_err returns after `false`: the joined table, or the
      literal "compile error" when the top of the stack is no table. */
  function FailureMessage(log: Log): string {
    match log
    case None => "compile error"
    case Some(entries) => Joined(entries)
  }

  lemma {:induction false} JoinedAppend(a: seq<string>, b: seq<string>)
    ensures Joined(a + b) == Joined(a) + Joined(b)
  {
    if b == [] {
      assert a + b == a;
    } else {
      var b', z := b[..|b| - 1], b[|b| - 1];
      assert (a + b)[..|a + b| - 1] == a + b';
      assert (a + b)[|a + b| - 1] == z;
      JoinedAppend(a, b');
      calc {
        Joined(a + b);
        Joined(a + b') + z + "\n";
        Joined(a) + Joined(b') + z + "\n";
        Joined(a) + (Joined(b') + z + "\n");
        Joined(a) + Joined(b);
      }
    }
  }

  /** The first line of a joined message is its first entry. */
  lemma JoinedCons(x: string, rest: seq<string>)
    ensures Joined([x] + rest) == x + "\n" + Joined(rest)
  {
    JoinedAppend([x], rest);
    assert [x][..0] == [];
  }

  /** The position of the first newline in s, or |s| when there is none. */
  function LineEnd(s: string): (i: nat)
    ensures i <= |s|
    ensures forall j :: 0 <= j < i ==> s[j] != '\n'
    ensures i < |s| ==> s[i] == '\n'
  {
    if s == [] || s[0] == '\n' then 0 else 1 + LineEnd(s[1..])
  }

  /** Splits text into its newline-terminated lines (a last unterminated
      piece counts as a line too). */
  function SplitLines(s: string): seq<string>
    decreases |s|
  {
    if s == [] then []
    else
      var i := LineEnd(s);
      if i == |s| then [s] else [s[..i]] + SplitLines(s[i + 1..])
  }

  /** Nothing is lost or reordered in the joined message: when no entry
      holds a newline itself, splitting the message into lines gives back
      exactly the entries, in order. */
  lemma {:induction false} SplitJoined(entries: seq<string>)
    requires forall k :: 0 <= k < |entries| ==> '\n' !in entries[k]
    ensures SplitLines(Joined(entries)) == entries
  {
    if entries != [] {
      var x, rest := entries[0], entries[1..];
      assert entries == [x] + rest;
      JoinedCons(x, rest);
      var s := Joined(entries);
      assert s == x + "\n" + Joined(rest);
      var i := LineEnd(s);
      assert s[|x|] == '\n';
      assert i == |x|;
      assert s[..i] == x;
      assert s[i + 1..] == Joined(rest);
      SplitJoined(rest);
    }
  }

  /** The Lua stack top that errfunc writes into during one call. */
  class Sink {
    var log: Log

    constructor (top: Log)
      ensures log == top
    {
      log := top;
    }

    /** errfunc: make a table if the top is not one, then store the
        message at index n+1, where n is the table's length. */
    method Report(msg: string)
      modifies this
      ensures log == Logged(old(log), msg)
    {
      if log.None? {
        log := Some([]);
      }
      var n := |log.value|;
      assert log.value[..n] == Entries(old(log));
      log := Some(log.value[..n] + [msg]);
    }
  }

  /** The loop in throw_err: every entry followed by a newline, in
      table order. */
  method JoinLines(entries: seq<string>) returns (msg: string)
    ensures msg == Joined(entries)
  {
    msg := "";
    for i := 0 to |entries|
      invariant msg == Joined(entries[..i])
    {
      assert entries[..i + 1][..i] == entries[..i];
      msg := msg + entries[i] + "\n";
    }
    assert entries[..|entries|] == entries;
  }
}
