/** libtcc, seen from the binding as an abstract engine: a symbol table,
    a flag saying whether an error callback was installed, and the
    answers of tcc_compile_string and tcc_relocate as oracle values. */
module Tcc {
  import opened Lua
  import opened Diagnostics

  /** A TCCState: the symbols tcc_get_symbol can find, and whether
      tcc_set_error_func has installed errfunc. */
  datatype Engine = Engine(symbols: map<string, Addr>, errorSink: bool)

  /** tcc_new */
  const New: Engine := Engine(map[], false)

  /** What tcc_compile_string does with one source text: its return
      value (non-zero is failure), the diagnostics it reports through the
      error callback, in order, and the symbols the source defines. */
  datatype CompileRun = CompileRun(status: int, diagnostics: seq<string>, defines: map<string, Addr>)

  /** What the two calls of tcc_relocate answer: the size asked for with
      a NULL buffer (negative is failure) and the diagnostics of that
      call, then the result of filling the buffer (negative is failure)
      and the diagnostics of that call. */
  datatype RelocateRun = RelocateRun(size: int, sizeDiagnostics: seq<string>, status: int, fillDiagnostics: seq<string>)

  /** tcc_get_symbol: the address bound to name, NULL when there is none. */
  function Address(e: Engine, name: string): Addr {
    if name in e.symbols then e.symbols[name] else 0
  }

  /** tcc_set_error_func */
  function WithErrorSink(e: Engine): Engine {
    e.(errorSink := true)
  }

  /** The engine after tcc_compile_string has accepted a source. */
  function Compiled(e: Engine, run: CompileRun): (r: Engine)
    ensures r.errorSink == e.errorSink
    ensures r.symbols.Keys == e.symbols.Keys + run.defines.Keys
    ensures forall n :: n in run.defines ==> Address(r, n) == run.defines[n]
    ensures forall n :: n !in run.defines ==> Address(r, n) == Address(e, n)
  {
    e.(symbols := e.symbols + run.defines)
  }

  /** tcc_add_symbol: name is bound to addr, every other name keeps its
      binding. */
  function AddSymbol(e: Engine, name: string, addr: Addr): (r: Engine)
    ensures r.errorSink == e.errorSink
    ensures r.symbols.Keys == e.symbols.Keys + {name}
    ensures Address(r, name) == addr
    ensures forall n :: n != name ==> Address(r, n) == Address(e, n)
  {
    e.(symbols := e.symbols[name := addr])
  }

  /** The engine calling errfunc once per diagnostic, in order. */
  method ReportAll(sink: Sink, msgs: seq<string>)
    modifies sink
    ensures sink.log == Emitted(old(sink.log), msgs)
  {
    for i := 0 to |msgs|
      invariant Emitted(sink.log, msgs[i..]) == Emitted(old(sink.log), msgs)
    {
      assert msgs[i..][1..] == msgs[i + 1..];
      sink.Report(msgs[i]);
    }
  }
}
