/** The record `struct ts` behind every tccstate userdata, and what each
    Lua entry point does to it, as functions of the record before the
    call. The class in module Luacc runs these operations step by step
    and is proved to agree with them. */
module Session {
  import opened Wrappers
  import opened Lua
  import opened Diagnostics
  import opened Tcc
  import opened Bridge

  /** The executable buffer lrelocate allocates: only its size is
      modelled, not the code tcc_relocate writes into it. */
  datatype Buffer = Buffer(size: int)

  /** struct ts: the engine `state` and the buffer `code`, each either
      NULL (None) or owned by the session. */
  datatype Ts = Ts(state: Option<Engine>, code: Option<Buffer>)

  /** The record lopen sets up: a new engine and no buffer. */
  const Opened: Ts := Ts(Some(New), None)

  /** The four combinations of the two pointers. ClosedHoldingCode is
      reached when the engine is gone but the buffer is not (lclose after
      relocation, or a failed second relocation phase). */
  datatype Stage = Open | Relocated | Closed | ClosedHoldingCode

  function StageOf(t: Ts): Stage {
    if t.state.Some? then (if t.code.None? then Open else Relocated)
    else (if t.code.None? then Closed else ClosedHoldingCode)
  }

  /** The Lua errors the binding raises. The "%p" part of each message is
      left out. */
  datatype Raised =
    | ToClosedState(op: string)              // "<op> to a closed state"
    | ToRelocatedState(op: string)           // "<op> to a relocated state"
    | FromClosedState(op: string)            // "<op> from a closed state"
    | FromUnrelocatedState(op: string)       // "<op> from a unrelocate state"
    | CantGet(name: string)                  // lroutine: "Can't get <name> from state"
    | CantFind(name: string)                 // lexport: "Can't find <name> in state"
    | CloseTwice                             // lclose: "Don't close twice"
    | BadArgument(arg: int, expected: string) // luaL_checkstring, luaL_checktype

  /** How a call from Lua ends: it returns its results, it returns
      `false, msg` through throw_err, or it raises a Lua error. */
  datatype Reply<T> = Ok(value: T) | Fail(msg: string) | Raise(err: Raised)

  /** What a call leaves behind: the record and the reply. */
  datatype Step<T> = Step(after: Ts, reply: Reply<T>)

  /** The same for compile and relocate, which also leave the diagnostic
      table (the value errfunc wrote into, at the top of the stack). */
  datatype Attempt<T> = Attempt(after: Ts, reply: Reply<T>, log: Log)

  /** _check: the guard of compile, relocate, import and api. It passes
      only an open, unrelocated session; a closed session is reported as
      closed even when it still holds a buffer. */
  function Check(t: Ts, op: string): (r: Option<Raised>)
    ensures r.None? <==> StageOf(t) == Open
    ensures StageOf(t) in {Closed, ClosedHoldingCode} ==> r == Some(ToClosedState(op))
    ensures StageOf(t) == Relocated ==> r == Some(ToRelocatedState(op))
  {
    if t.state.None? then Some(ToClosedState(op))
    else if t.code.Some? then Some(ToRelocatedState(op))
    else None
  }

  /** _check_export: the guard of export and routine. It passes only a
      relocated session with its engine; again "closed" comes first. */
  function CheckExport(t: Ts, op: string): (r: Option<Raised>)
    ensures r.None? <==> StageOf(t) == Relocated
    ensures StageOf(t) in {Closed, ClosedHoldingCode} ==> r == Some(FromClosedState(op))
    ensures StageOf(t) == Open ==> r == Some(FromUnrelocatedState(op))
  {
    if t.state.None? then Some(FromClosedState(op))
    else if t.code.None? then Some(FromUnrelocatedState(op))
    else None
  }

  /** throw_err: the engine is deleted. Its test on the buffer fires only
      when the buffer is already NULL, so the buffer is never freed here.
      The reply is `false` with the message built from the table. */
  function ThrowErr<T>(t: Ts, log: Log): Step<T> {
    Step(Ts(None, t.code), Fail(FailureMessage(log)))
  }

  /** lcompile */
  function CompileStep(t: Ts, source: Option<string>, run: CompileRun, top: Log): (r: Attempt<bool>)
    ensures r.reply.Raise? <==> StageOf(t) != Open || source.None?
    ensures r.reply.Raise? ==> r.after == t && r.log == top
    ensures StageOf(t) != Open ==> r.reply == Raise(Check(t, "Compile").value)
    ensures r.reply.Ok? <==> StageOf(t) == Open && source.Some? && run.status == 0
    ensures r.reply.Ok? ==> r.reply.value && StageOf(r.after) == Open
    ensures r.reply.Ok? ==> r.after.state.value.symbols == t.state.value.symbols + run.defines
    ensures r.reply.Ok? ==> r.after.state == Some(Compiled(WithErrorSink(t.state.value), run))
    ensures StageOf(t) == Open && source.Some? ==> r.after.state.None? || r.after.state.value.errorSink
    ensures StageOf(t) == Open && source.None? ==> r.reply == Raise(BadArgument(2, "string"))
    ensures r.reply.Fail? ==> r.after == Ts(None, None) && r.reply.msg == FailureMessage(r.log)
    ensures !r.reply.Raise? ==> r.log == Emitted(top, run.diagnostics)
  {
    match Check(t, "Compile")
    case Some(err) => Attempt(t, Raise(err), top)
    case None =>
      if source.None? then Attempt(t, Raise(BadArgument(2, "string")), top)
      else
        var t1 := Ts(Some(WithErrorSink(t.state.value)), t.code);
        var log := Emitted(top, run.diagnostics);
        if run.status != 0 then
          var s := ThrowErr<bool>(t1, log);
          Attempt(s.after, s.reply, log)
        else
          Attempt(Ts(Some(Compiled(t1.state.value, run)), t1.code), Ok(true), log)
  }

  /** lrelocate: ask for the size with a NULL buffer, allocate, fill. */
  function RelocateStep(t: Ts, run: RelocateRun, top: Log): (r: Attempt<int>)
    ensures r.reply.Raise? <==> StageOf(t) != Open
    ensures r.reply.Raise? ==> r == Attempt(t, Raise(Check(t, "Relocate").value), top)
    ensures r.reply.Ok? <==> StageOf(t) == Open && run.size >= 0 && run.status >= 0
    ensures r.reply.Ok? ==> r.reply.value == run.size && r.after == Ts(t.state, Some(Buffer(run.size)))
    ensures r.reply.Fail? ==> r.after.state.None? && r.reply.msg == FailureMessage(r.log)
    ensures r.reply.Fail? ==> r.after.code == if run.size < 0 then None else Some(Buffer(run.size))
    ensures StageOf(t) == Open ==>
      r.log == if t.state.value.errorSink
               then Emitted(top, run.sizeDiagnostics + if run.size < 0 then [] else run.fillDiagnostics)
               else top
  {
    match Check(t, "Relocate")
    case Some(err) => Attempt(t, Raise(err), top)
    case None =>
      var reports := t.state.value.errorSink;
      var log1 := if reports then Emitted(top, run.sizeDiagnostics) else top;
      if run.size < 0 then
        assert run.sizeDiagnostics + [] == run.sizeDiagnostics;
        var s := ThrowErr<int>(t, log1);
        Attempt(s.after, s.reply, log1)
      else
        var t1 := Ts(t.state, Some(Buffer(run.size)));
        var log2 := if reports then Emitted(log1, run.fillDiagnostics) else log1;
        EmittedConcat(top, run.sizeDiagnostics, run.fillDiagnostics);
        if run.status < 0 then
          var s := ThrowErr<int>(t1, log2);
          Attempt(s.after, s.reply, log2)
        else
          Attempt(t1, Ok(run.size), log2)
  }

  /** limport's loop over the table entries, on the session's engine:
      the engine after the accepted entries, and the error raised on the
      first rejected entry, if any. */
  function ImportLoop(e: Engine, m: map<Value, Value>, order: seq<Value>): (r: (Engine, Option<Raised>))
    requires IsTraversal(order, m)
    ensures r.0.errorSink == e.errorSink
    ensures r.1.None? <==> forall k :: k in m ==> Importable(m, k)
    ensures forall i :: 0 <= i < FirstRejected(m, order) ==> Address(r.0, order[i].s) == m[order[i]].addr
    ensures forall n :: Str(n) !in m ==> Address(r.0, n) == Address(e, n)
    ensures forall n :: n !in Names(order[..FirstRejected(m, order)]) ==> Address(r.0, n) == Address(e, n)
    ensures r.1.Some? ==>
      var j := FirstRejected(m, order);
      j < |order| &&
      r.1.value == if order[j].Str? then BadArgument(-1, "lightuserdata") else BadArgument(-2, "string")
  {
    var j := FirstRejected(m, order);
    var keys := order[..j];
    ImportPrefix(e, m, order);
    RejectedIffSomeBad(m, order);
    var e' := Installed(e, m, keys);
    if j == |order| then (e', None)
    else if !order[j].Str? then (e', Some(BadArgument(-2, "string")))
    else (e', Some(BadArgument(-1, "lightuserdata")))
  }

  lemma RejectedIffSomeBad(m: map<Value, Value>, order: seq<Value>)
    requires IsTraversal(order, m)
    ensures FirstRejected(m, order) == |order| <==> forall k :: k in m ==> Importable(m, k)
  {
    var j := FirstRejected(m, order);
    if j == |order| {
      forall k | k in m ensures Importable(m, k) {
        var i :| 0 <= i < |order| && order[i] == k;
      }
    } else {
      assert order[j] in m && !Importable(m, order[j]);
    }
  }

  lemma ImportPrefix(e: Engine, m: map<Value, Value>, order: seq<Value>)
    requires IsTraversal(order, m)
    ensures var j := FirstRejected(m, order);
      && (forall i :: 0 <= i < j ==> Importable(m, order[..j][i]))
      && Installed(e, m, order[..j]).errorSink == e.errorSink
      && (forall i :: 0 <= i < j ==> Address(Installed(e, m, order[..j]), order[i].s) == m[order[i]].addr)
      && (forall n :: Str(n) !in m ==> Address(Installed(e, m, order[..j]), n) == Address(e, n))
      && (forall n :: n !in Names(order[..j]) ==> Address(Installed(e, m, order[..j]), n) == Address(e, n))
  {
    var j := FirstRejected(m, order);
    var keys := order[..j];
    assert forall i :: 0 <= i < j ==> keys[i] == order[i];
    InstalledBinds(e, m, keys);
    assert forall n :: Str(n) !in m ==> n !in Names(keys);
  }

  /** limport, on the table argument (None when it is not a table) and
      the order in which lua_next visits its keys. */
  function ImportStep(t: Ts, arg: Option<map<Value, Value>>, order: seq<Value>): (r: Step<()>)
    requires arg.Some? ==> IsTraversal(order, arg.value)
    ensures StageOf(t) != Open ==> r == Step(t, Raise(Check(t, "Import").value))
    ensures StageOf(t) == Open && arg.None? ==> r == Step(t, Raise(BadArgument(2, "table")))
    ensures !r.reply.Fail?
    ensures r.reply.Ok? <==>
      StageOf(t) == Open && arg.Some? && forall k :: k in arg.value ==> Importable(arg.value, k)
    ensures StageOf(t) == Open ==> StageOf(r.after) == Open
    ensures StageOf(t) == Open && arg.Some? ==>
      var x := ImportLoop(t.state.value, arg.value, order);
      r.after.state == Some(x.0) && (r.reply.Raise? ==> r.reply.err == x.1.value)
  {
    match Check(t, "Import")
    case Some(err) => Step(t, Raise(err))
    case None =>
      if arg.None? then Step(t, Raise(BadArgument(2, "table")))
      else
        var x := ImportLoop(t.state.value, arg.value, order);
        Step(Ts(Some(x.0), t.code), if x.1.None? then Ok(()) else Raise(x.1.value))
  }

  /** limport stops at position i of the traversal: the step's outcome
      is the engine after the first i entries, with the reply of entry i. */
  lemma ImportStopsAt(t: Ts, m: map<Value, Value>, order: seq<Value>, i: nat)
    requires StageOf(t) == Open && IsTraversal(order, m)
    requires i <= |order| && forall j :: 0 <= j < i ==> Importable(m, order[j])
    requires i < |order| ==> !Importable(m, order[i])
    ensures FirstRejected(m, order) == i
    ensures ImportStep(t, Some(m), order) ==
      Step(Ts(Some(Installed(t.state.value, m, order[..i])), t.code),
           if i == |order| then Ok(())
           else if !order[i].Str? then Raise(BadArgument(-2, "string"))
           else Raise(BadArgument(-1, "lightuserdata")))
  {
    var j := FirstRejected(m, order);
    assert forall k :: 0 <= k < j ==> Importable(m, order[k]);
  }

  /** lapi */
  function ApiStep(t: Ts, host: string -> Addr): (r: Step<()>)
    ensures StageOf(t) != Open ==> r == Step(t, Raise(Check(t, "Import api").value))
    ensures r.reply.Ok? <==> StageOf(t) == Open
    ensures r.reply.Ok? ==>
      StageOf(r.after) == Open && r.after.state.value.errorSink == t.state.value.errorSink
    ensures r.reply.Ok? ==> forall n :: n in ApiNames ==> Address(r.after.state.value, n) == host(n)
    ensures r.reply.Ok? ==>
      forall n :: n !in ApiNames ==> Address(r.after.state.value, n) == Address(t.state.value, n)
  {
    match Check(t, "Import api")
    case Some(err) => Step(t, Raise(err))
    case None =>
      ApiBinds(t.state.value, host);
      Step(Ts(Some(WithApi(t.state.value, host)), t.code), Ok(()))
  }

  /** What lexport leaves: its reply and the caller's table. */
  datatype Exported = Exported(reply: Reply<()>, table: Option<map<Value, Value>>)

  /** lexport, on the table argument (None when it is not a table) and
      the order in which lua_next visits its keys. The session itself is
      never changed. */
  function ExportStep(t: Ts, arg: Option<map<Value, Value>>, order: seq<Value>): (r: Exported)
    requires arg.Some? ==> IsTraversal(order, arg.value) && StringKeys(arg.value)
    ensures StageOf(t) != Relocated ==> r == Exported(Raise(CheckExport(t, "Export").value), arg)
    ensures StageOf(t) == Relocated && arg.None? ==> r == Exported(Raise(BadArgument(2, "table")), arg)
    ensures !r.reply.Fail? && (arg.Some? <==> r.table.Some?)
    ensures arg.Some? ==> r.table.value.Keys == arg.value.Keys
    ensures r.reply.Ok? <==>
      StageOf(t) == Relocated && arg.Some? &&
      forall k :: k in arg.value ==> Address(t.state.value, k.s) != 0
    ensures r.reply.Ok? ==>
      forall k :: k in arg.value ==> r.table.value[k] == Light(Address(t.state.value, k.s))
    ensures r.reply.Raise? && r.reply.err.CantFind? ==>
      StageOf(t) == Relocated && arg.Some? &&
      Str(r.reply.err.name) in arg.value && Address(t.state.value, r.reply.err.name) == 0
    ensures StageOf(t) == Relocated && arg.Some? && !r.reply.Ok? ==>
      var j := FirstMissing(t.state.value, order);
      j < |order| && r.reply == Raise(CantFind(order[j].s))
    ensures StageOf(t) == Relocated && arg.Some? ==>
      var j := FirstMissing(t.state.value, order);
      && (forall i :: 0 <= i < j ==> r.table.value[order[i]] == Light(Address(t.state.value, order[i].s)))
      && (forall i :: j <= i < |order| ==> r.table.value[order[i]] == arg.value[order[i]])
  {
    match CheckExport(t, "Export")
    case Some(err) => Exported(Raise(err), arg)
    case None =>
      if arg.None? then Exported(Raise(BadArgument(2, "table")), arg)
      else
        var m, e := arg.value, t.state.value;
        ExportPrefix(m, order, e);
        ExportComplete(m, order, e);
        var j := FirstMissing(e, order);
        var written := Written(m, order[..j], e);
        if j == |order| then Exported(Ok(()), Some(written))
        else Exported(Raise(CantFind(order[j].s)), Some(written))
  }

  /** What lexport's loop leaves in the table when it stops at the first
      missing name (or at the end): visited keys hold addresses, the rest
      their old values. */
  lemma ExportPrefix(m: map<Value, Value>, order: seq<Value>, e: Engine)
    requires IsTraversal(order, m) && StringKeys(m)
    ensures AllStrings(order)
    ensures var j := FirstMissing(e, order);
      var w := Written(m, order[..j], e);
      && w.Keys == m.Keys
      && (forall i :: 0 <= i < j ==> w[order[i]] == Light(Address(e, order[i].s)))
      && (forall i :: j <= i < |order| ==> w[order[i]] == m[order[i]])
      && (j < |order| ==> order[j] in m && Address(e, order[j].s) == 0)
  {
    assert AllStrings(order);
    var j := FirstMissing(e, order);
    var keys := order[..j];
    WrittenSpec(m, keys, e);
    assert forall i :: 0 <= i < j ==> order[i] == keys[i];
    assert forall i :: j <= i < |order| ==> order[i] !in keys;
  }

  /** lexport's loop runs to the end exactly when every key names a
      symbol, and then every key holds its symbol's address. */
  lemma ExportComplete(m: map<Value, Value>, order: seq<Value>, e: Engine)
    requires IsTraversal(order, m) && StringKeys(m)
    ensures AllStrings(order)
    ensures var j := FirstMissing(e, order);
      && (j == |order| <==> forall k :: k in m ==> Address(e, k.s) != 0)
      && Written(m, order[..j], e).Keys == m.Keys
      && (j == |order| ==> forall k :: k in m ==> Written(m, order[..j], e)[k] == Light(Address(e, k.s)))
  {
    assert AllStrings(order);
    var j := FirstMissing(e, order);
    WrittenSpec(m, order[..j], e);
    if j == |order| {
      assert order[..j] == order;
      forall k | k in m ensures Address(e, k.s) != 0 {
        var i :| 0 <= i < |order| && order[i] == k;
      }
    } else {
      assert order[j] in m;
    }
  }

  /** lclose */
  function CloseStep(t: Ts): (r: Step<()>)
    ensures r.reply.Raise? <==> StageOf(t) in {Closed, ClosedHoldingCode}
    ensures r.reply.Raise? ==> r == Step(t, Raise(CloseTwice))
    ensures r.reply.Ok? ==> StageOf(r.after) in {Closed, ClosedHoldingCode} && r.after.code == t.code
    ensures t.state.Some? ==> r == Step(Ts(None, t.code), Ok(()))
  {
    if t.state.None? then Step(t, Raise(CloseTwice))
    else Step(Ts(None, t.code), Ok(()))
  }

  /** ldelete, the finalizer */
  function Collected(t: Ts): (r: Ts)
    ensures StageOf(r) == Closed
  {
    Ts(None, None)
  }

  /** The memory a session owns: what ldelete frees, in its order. */
  datatype Resource = EngineMemory | CodeMemory

  function Held(t: Ts): seq<Resource> {
    (if t.state.Some? then [EngineMemory] else []) + (if t.code.Some? then [CodeMemory] else [])
  }

  // ----- sequences of calls -----

  /** One call from Lua on the session, with what the outside world
      answers during it. */
  datatype Op =
    | Compile(source: Option<string>, compilation: CompileRun, top: Log)
    | Relocate(relocation: RelocateRun, top: Log)
    | Import(table: Option<map<Value, Value>>, order: seq<Value>)
    | Api(host: string -> Addr)
    | Export(table: Option<map<Value, Value>>, order: seq<Value>)
    | Routine(name: Option<string>)
    | Close
    | Collect

  /** The answers Lua can give: a lua_next traversal, and string keys in
      a table handed to export. */
  predicate Admissible(op: Op) {
    match op
    case Import(table, order) => table.Some? ==> IsTraversal(order, table.value)
    case Export(table, order) => table.Some? ==> IsTraversal(order, table.value) && StringKeys(table.value)
    case _ => true
  }

  /** The record after one call. Export and routine never change it. */
  function Apply(t: Ts, op: Op): Ts
    requires Admissible(op)
  {
    match op
    case Compile(source, run, top) => CompileStep(t, source, run, top).after
    case Relocate(run, top) => RelocateStep(t, run, top).after
    case Import(table, order) => ImportStep(t, table, order).after
    case Api(host) => ApiStep(t, host).after
    case Export(_, _) => t
    case Routine(_) => t
    case Close => CloseStep(t).after
    case Collect => Collected(t)
  }

  /** The record after a sequence of calls. */
  function Run(t: Ts, ops: seq<Op>): Ts
    requires forall i :: 0 <= i < |ops| ==> Admissible(ops[i])
    decreases |ops|
  {
    if ops == [] then t else Run(Apply(t, ops[0]), ops[1..])
  }

  /** Closing is irreversible: once the engine is gone no call brings it
      back, and the only further change is the finalizer dropping a
      remaining buffer. */
  lemma {:induction false} ClosedIsTerminal(t: Ts, ops: seq<Op>)
    requires forall i :: 0 <= i < |ops| ==> Admissible(ops[i])
    requires t.state.None?
    ensures Run(t, ops) == t || Run(t, ops) == Ts(None, None)
    decreases |ops|
  {
    if ops != [] {
      var t' := Apply(t, ops[0]);
      assert t' == t || t' == Ts(None, None);
      ClosedIsTerminal(t', ops[1..]);
    }
  }

  /** A session never gets a second buffer: once allocated, the buffer
      stays until the finalizer frees it. */
  lemma {:induction false} BufferNeverReplaced(t: Ts, ops: seq<Op>)
    requires forall i :: 0 <= i < |ops| ==> Admissible(ops[i])
    requires t.code.Some?
    ensures Run(t, ops).code == t.code || Run(t, ops) == Ts(None, None)
    decreases |ops|
  {
    if ops != [] {
      var t' := Apply(t, ops[0]);
      assert t'.code == t.code || t' == Ts(None, None);
      if t'.code.Some? {
        BufferNeverReplaced(t', ops[1..]);
      } else {
        ClosedIsTerminal(t', ops[1..]);
      }
    }
  }

  /** The buffer is allocated only after the size query succeeded. */
  predicate SizedBuffer(t: Ts) {
    t.code.Some? ==> t.code.value.size >= 0
  }

  lemma {:induction false} BuffersAreSized(t: Ts, ops: seq<Op>)
    requires forall i :: 0 <= i < |ops| ==> Admissible(ops[i])
    requires SizedBuffer(t)
    ensures SizedBuffer(Run(t, ops))
    decreases |ops|
  {
    if ops != [] {
      BuffersAreSized(Apply(t, ops[0]), ops[1..]);
    }
  }

  /** Every session that Lua can reach through the entry points. */
  lemma ReachableBuffersAreSized(ops: seq<Op>)
    requires forall i :: 0 <= i < |ops| ==> Admissible(ops[i])
    ensures SizedBuffer(Run(Opened, ops))
  {
    BuffersAreSized(Opened, ops);
  }

  /** A closed engine with a live buffer is reachable: a compile, then a
      relocation whose second phase fails. */
  lemma FailedFillKeepsBuffer(source: string, run: CompileRun, reloc: RelocateRun, top: Log)
    requires run.status == 0 && reloc.size >= 0 && reloc.status < 0
    ensures StageOf(Run(Opened, [Compile(Some(source), run, top), Relocate(reloc, top)])) == ClosedHoldingCode
  {
    var ops := [Compile(Some(source), run, top), Relocate(reloc, top)];
    var t1 := Apply(Opened, ops[0]);
    assert StageOf(t1) == Open;
    var t2 := Apply(t1, ops[1]);
    assert StageOf(t2) == ClosedHoldingCode;
    assert ops[1..] == [ops[1]] && ops[1..][1..] == [];
    assert Run(t1, ops[1..]) == Run(t2, []) == t2;
  }

  /** After a failed compile or relocation, close raises the same error
      as a second close does. */
  lemma CloseAfterFailure(t: Ts, source: Option<string>, run: CompileRun, reloc: RelocateRun, top: Log)
    ensures CompileStep(t, source, run, top).reply.Fail? ==>
      CloseStep(CompileStep(t, source, run, top).after).reply == Raise(CloseTwice)
    ensures RelocateStep(t, reloc, top).reply.Fail? ==>
      CloseStep(RelocateStep(t, reloc, top).after).reply == Raise(CloseTwice)
    ensures CloseStep(t).reply.Ok? ==> CloseStep(CloseStep(t).after).reply == Raise(CloseTwice)
  {
  }

  /** The message of a failed compile on a stack without a diagnostic
      table: "compile error" when the engine said nothing, otherwise each
      diagnostic followed by a newline, from which the diagnostics can be
      read back in emission order. */
  lemma CompileFailureMessage(t: Ts, source: string, run: CompileRun)
    requires StageOf(t) == Open && run.status != 0
    ensures CompileStep(t, Some(source), run, None).reply ==
      Fail(if run.diagnostics == [] then "compile error" else Joined(run.diagnostics))
    ensures (forall k :: 0 <= k < |run.diagnostics| ==> '\n' !in run.diagnostics[k]) ==>
      run.diagnostics != [] ==>
      SplitLines(CompileStep(t, Some(source), run, None).reply.msg) == run.diagnostics
  {
    EmittedAppends(None, run.diagnostics);
    assert Entries(None) + run.diagnostics == run.diagnostics;
    if forall k :: 0 <= k < |run.diagnostics| ==> '\n' !in run.diagnostics[k] {
      SplitJoined(run.diagnostics);
    }
  }

  /** Compile, relocate, then export a name the source defines: the
      relocation reports the size of the first query, and the caller's
      table receives the symbol's address under that name. */
  lemma CompileRelocateExport(source: string, run: CompileRun, reloc: RelocateRun, name: string, placeholder: Value)
    requires run.status == 0 && reloc.size >= 0 && reloc.status >= 0
    requires name in run.defines && run.defines[name] != 0
    ensures var c := CompileStep(Opened, Some(source), run, None);
      var r := RelocateStep(c.after, reloc, c.log);
      var x := ExportStep(r.after, Some(map[Str(name) := placeholder]), [Str(name)]);
      && r.reply == Ok(reloc.size)
      && x == Exported(Ok(()), Some(map[Str(name) := Light(run.defines[name])]))
  {
    var c := CompileStep(Opened, Some(source), run, None);
    var e := c.after.state.value;
    assert e.symbols == run.defines;
    var r := RelocateStep(c.after, reloc, c.log);
    assert r.after.state == Some(e) && StageOf(r.after) == Relocated;
    var table := map[Str(name) := placeholder];
    assert IsTraversal([Str(name)], table);
    var x := ExportStep(r.after, Some(table), [Str(name)]);
    assert x.reply.Ok?;
    assert x.table.value.Keys == {Str(name)};
    assert x.table.value == map[Str(name) := Light(run.defines[name])];
  }
}
