/** The tccstate userdata of luacc.c and its Lua entry points, run step
    by step on the two fields of struct ts. Each method is proved to
    agree with the matching function of module Session, and every method
    keeps the resource invariant: nothing is freed twice. */
module Luacc {
  import opened Wrappers
  import opened Lua
  import opened Diagnostics
  import opened Tcc
  import opened Bridge
  import opened Session

  class Handle {
    var state: Option<Engine>
    var code: Option<Buffer>
    /** Every tcc_delete and free performed on this session so far. */
    ghost var released: seq<Resource>

    /** Nothing is freed twice, nothing still held has been freed, and
        nothing is freed while the engine is alive. */
    ghost predicate Valid()
      reads this
    {
      && (forall i, j :: 0 <= i < j < |released| ==> released[i] != released[j])
      && (state.Some? ==> released == [])
      && (code.Some? ==> CodeMemory !in released)
    }

    /** The current value of struct ts. */
    function Snapshot(): Ts
      reads this
    {
      Ts(state, code)
    }

    /** lopen: a new engine and no buffer. */
    constructor ()
      ensures Valid() && Snapshot() == Opened && released == []
    {
      code := None;
      state := Some(New);
      released := [];
    }

    /** ldelete, the finalizer: frees whatever is still held, silently. */
    method Delete()
      requires Valid()
      modifies this
      ensures Valid() && Snapshot() == Collected(old(Snapshot()))
      ensures released == old(released) + Held(old(Snapshot()))
    {
      if state.Some? {
        state := None;
        released := released + [EngineMemory];
      }
      if code.Some? {
        code := None;
        released := released + [CodeMemory];
      }
    }

    /** lclose: deletes the engine only; raises when it is already gone. */
    method Close() returns (r: Reply<()>)
      requires Valid()
      modifies this
      ensures Valid() && Step(Snapshot(), r) == CloseStep(old(Snapshot()))
      ensures released == old(released) + if r.Ok? then [EngineMemory] else []
    {
      if state.None? {
        return Raise(CloseTwice);
      }
      state := None;
      released := released + [EngineMemory];
      return Ok(());
    }

    /** throw_err, with the diagnostic table errfunc filled. */
    method ThrowErr<T>(sink: Sink) returns (r: Reply<T>)
      requires Valid() && state.Some?
      modifies this
      ensures Valid() && Step(Snapshot(), r) == Session.ThrowErr(old(Snapshot()), sink.log)
      ensures released == old(released) + [EngineMemory]
    {
      if code.None? {
        // free(NULL): the test is inverted, so a live buffer is never freed here
        code := None;
      }
      state := None;
      released := released + [EngineMemory];
      if sink.log.None? {
        return Fail("compile error");
      }
      var msg := JoinLines(sink.log.value);
      return Fail(msg);
    }

    /** lcompile. `run` is what tcc_compile_string does with the source;
        `sink` is the top of the Lua stack that errfunc writes into. */
    method Compile(source: Option<string>, run: CompileRun, sink: Sink) returns (r: Reply<bool>)
      requires Valid()
      modifies this, sink
      ensures Valid()
      ensures var x := CompileStep(old(Snapshot()), source, run, old(sink.log));
        Snapshot() == x.after && r == x.reply && sink.log == x.log
      ensures released == old(released) + if r.Fail? then [EngineMemory] else []
    {
      var err := Check(Snapshot(), "Compile");
      if err.Some? {
        return Raise(err.value);
      }
      if source.None? {
        return Raise(BadArgument(2, "string"));
      }
      state := Some(WithErrorSink(state.value));
      ReportAll(sink, run.diagnostics);
      if run.status != 0 {
        r := ThrowErr(sink);
        return;
      }
      state := Some(Compiled(state.value, run));
      return Ok(true);
    }

    /** lrelocate. `run` holds the answers of the two tcc_relocate calls. */
    method Relocate(run: RelocateRun, sink: Sink) returns (r: Reply<int>)
      requires Valid()
      modifies this, sink
      ensures Valid()
      ensures var x := RelocateStep(old(Snapshot()), run, old(sink.log));
        Snapshot() == x.after && r == x.reply && sink.log == x.log
      ensures released == old(released) + if r.Fail? then [EngineMemory] else []
    {
      var err := Check(Snapshot(), "Relocate");
      if err.Some? {
        return Raise(err.value);
      }
      var reports := state.value.errorSink;
      if reports {
        ReportAll(sink, run.sizeDiagnostics);
      }
      var sz := run.size;
      if sz < 0 {
        r := ThrowErr(sink);
        return;
      }
      code := Some(Buffer(sz));
      if reports {
        ReportAll(sink, run.fillDiagnostics);
      }
      if run.status < 0 {
        r := ThrowErr(sink);
        return;
      }
      return Ok(sz);
    }

    /** limport: registers each string -> light userdata pair in traversal
        order, raising on the first other entry. */
    method Import(arg: Table?, order: seq<Value>) returns (r: Reply<()>)
      requires Valid()
      requires arg != null ==> IsTraversal(order, arg.entries)
      modifies this
      ensures Valid() && released == old(released)
      ensures Step(Snapshot(), r) == ImportStep(old(Snapshot()), if arg == null then None else Some(arg.entries), order)
    {
      var err := Check(Snapshot(), "Import");
      if err.Some? {
        return Raise(err.value);
      }
      if arg == null {
        return Raise(BadArgument(2, "table"));
      }
      ghost var t0 := Snapshot();
      var i;
      i, r := ImportEntries(arg, order);
      ImportStopsAt(t0, arg.entries, order, i);
    }

    /** limport's lua_next loop: adds each string -> light userdata pair
        to the engine and stops with an error at the first other entry,
        at position i of the traversal. */
    method ImportEntries(arg: Table, order: seq<Value>) returns (i: nat, r: Reply<()>)
      requires state.Some? && IsTraversal(order, arg.entries)
      modifies this
      ensures i <= |order| && forall j :: 0 <= j < i ==> Importable(arg.entries, order[j])
      ensures i < |order| ==> !Importable(arg.entries, order[i])
      ensures state == Some(Installed(old(state.value), arg.entries, order[..i]))
      ensures code == old(code) && released == old(released)
      ensures r == if i == |order| then Ok(())
                   else if !order[i].Str? then Raise(BadArgument(-2, "string"))
                   else Raise(BadArgument(-1, "lightuserdata"))
    {
      var e := state.value;
      ghost var m := arg.entries;
      i := 0;
      while i < |order|
        invariant 0 <= i <= |order|
        invariant forall j :: 0 <= j < i ==> Importable(m, order[j])
        invariant state == Some(Installed(e, m, order[..i]))
        invariant code == old(code) && released == old(released)
      {
        var key := order[i];
        if !key.Str? {
          return i, Raise(BadArgument(-2, "string"));
        }
        var value := arg.entries[key];
        if !value.Light? {
          return i, Raise(BadArgument(-1, "lightuserdata"));
        }
        InstalledNext(e, m, order, i);
        state := Some(AddSymbol(state.value, key.s, value.addr));
        i := i + 1;
      }
      return i, Ok(());
    }

    /** lapi: import_sym on the engine. `host` gives the address of each
        Lua C API function. */
    method Api(host: string -> Addr) returns (r: Reply<()>)
      requires Valid()
      modifies this
      ensures Valid() && released == old(released)
      ensures Step(Snapshot(), r) == ApiStep(old(Snapshot()), host)
    {
      var err := Check(Snapshot(), "Import api");
      if err.Some? {
        return Raise(err.value);
      }
      state := Some(WithApi(state.value, host));
      return Ok(());
    }

    /** lexport: overwrites each key's value in the caller's table with the
        address of the symbol of that name, raising on the first name the
        engine cannot find. The session is not changed. */
    method Export(arg: Table?, order: seq<Value>) returns (r: Reply<()>)
      requires arg != null ==> IsTraversal(order, arg.entries) && StringKeys(arg.entries)
      modifies arg
      ensures var x := ExportStep(Snapshot(), if arg == null then None else Some(old(arg.entries)), order);
        r == x.reply && (arg != null ==> x.table == Some(arg.entries))
    {
      var err := CheckExport(Snapshot(), "Export");
      if err.Some? {
        return Raise(err.value);
      }
      if arg == null {
        return Raise(BadArgument(2, "table"));
      }
      var e := state.value;
      ghost var m := arg.entries;
      assert AllStrings(order);
      var i := 0;
      while i < |order|
        invariant 0 <= i <= |order|
        invariant forall j :: 0 <= j < i ==> Address(e, order[j].s) != 0
        invariant arg.entries == Written(m, order[..i], e)
      {
        var name := order[i].s;
        var f := Address(e, name);
        if f == 0 {
          assert FirstMissing(e, order) == i;
          assert ExportStep(Snapshot(), Some(m), order) == Exported(Raise(CantFind(name)), Some(arg.entries));
          return Raise(CantFind(name));
        }
        assert order[..i + 1][..i] == order[..i];
        arg.entries := arg.entries[order[i] := Light(f)];
        i := i + 1;
      }
      assert order[..i] == order;
      assert FirstMissing(e, order) == i;
      assert ExportStep(Snapshot(), Some(m), order) == Exported(Ok(()), Some(arg.entries));
      return Ok(());
    }

    /** lroutine: the compiled function of that name, for Lua to call. */
    method Routine(name: Option<string>) returns (r: Reply<Addr>)
      ensures r.Ok? <==>
        StageOf(Snapshot()) == Relocated && name.Some? && Address(state.value, name.value) != 0
      ensures r.Ok? ==> r.value == Address(state.value, name.value)
      ensures StageOf(Snapshot()) != Relocated ==> r == Raise(CheckExport(Snapshot(), "Export routine").value)
      ensures StageOf(Snapshot()) == Relocated && name.None? ==> r == Raise(BadArgument(2, "string"))
      ensures StageOf(Snapshot()) == Relocated && name.Some? && !r.Ok? ==> r == Raise(CantGet(name.value))
    {
      var err := CheckExport(Snapshot(), "Export routine");
      if err.Some? {
        return Raise(err.value);
      }
      if name.None? {
        return Raise(BadArgument(2, "string"));
      }
      var f := Address(state.value, name.value);
      if f == 0 {
        return Raise(CantGet(name.value));
      }
      return Ok(f);
    }
  }

  /** A Lua client: a compile that fails closes the session, a following
      close raises "Don't close twice", and the finalizer that runs later
      frees only the engine, once, leaving nothing held. */
  method CloseAfterFailedCompile(source: string, run: CompileRun)
    returns (compiled: Reply<bool>, closed: Reply<()>, h: Handle)
    requires run.status != 0
    ensures compiled.Fail? && closed == Raise(CloseTwice)
    ensures h.Valid() && h.released == [EngineMemory] && h.Snapshot() == Ts(None, None)
  {
    h := new Handle();
    var sink := new Sink(None);
    compiled := h.Compile(Some(source), run, sink);
    closed := h.Close();
    h.Delete();
  }
}
