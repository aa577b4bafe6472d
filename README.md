# luacc: a Dafny model of the Lua binding for libtcc

luacc lets a Lua program run the Tiny C Compiler (libtcc) in-process.
`lopen` creates a session, which is a Lua userdata wrapping `struct ts`. That struct holds two
pointers:

- `state`: the TCC engine;
- `code`: the buffer the compiled program is relocated into.

The session's methods are:

- `compile`: compile C source text;
- `relocate`: link the program into a buffer sized by a first `tcc_relocate` query;
- `import` and `api`: add host symbols before linking;
- `export` and `routine`: look up symbols after linking;
- `close` and the `__gc` finalizer: free the session.

Diagnostics from the engine are collected into a Lua table that sits at
the top of the stack. When a compile or relocation fails, that table becomes the message
returned after `false`.

The model follows the session's four stages:

| stage | `state` | `code` |
|---|---|---|
| open | engine | none |
| relocated | engine | buffer |
| closed | none | none |
| closed holding a buffer | none | buffer |

It keeps the two ways a call can fail apart:

- a Lua error raised by `luaL_error` or an argument check (`Raise`);
- the `false, message` pair returned by `throw_err` (`Fail`).

## Layout

- `wrappers.dfy`: the `Option` type.
- `lua.dfy`: Lua values, addresses and tables, plus the property that
  `lua_next` visits every key exactly once.
- `diagnostics.dfy`: `errfunc` as the `Sink` class and the
  `Emitted` fold, plus the message `throw_err` builds (`Joined`,
  built by the `JoinLines` loop) and the proof that it can be split back
  into its entries.
- `tcc.dfy`: the engine. Its symbol table and whether an error callback is installed are
  modelled. The results of `tcc_compile_string` and `tcc_relocate` are passed in as parameters.
- `bridge.dfy`: the loops of `limport`, `lexport` and `import_sym`, written as
  folds over the traversal order, with lemmas on what they bind.
- `session.dfy`: `struct ts` as a value, the two guards and one
  step function per entry point. These form the specification. It also has lemmas on
  whole sequences of calls.
- `luacc.dfy`: the userdata as the class `Handle`, with one method per entry
  point. The methods that change the session are proved equal to their step
  functions on the fields, the reply and the diagnostic table. Export is tied
  to its step function through its reply and the caller's table. Routine
  changes nothing and is specified directly. Every method that changes the
  session keeps the invariant that no resource is freed twice.

## Where the code departs from its evident design

The model follows the code as written.

- `lclose` deletes the engine but keeps the relocated buffer. The buffer
  is freed only by the finalizer.
- In `throw_err`, the test `if (t->code == NULL)` is inverted, so the
  failure path never frees a buffer. A relocation whose second phase fails
  leaves a closed session that still holds its buffer until collection.
  `Session.FailedFillKeepsBuffer` shows this stage is reachable.
- The message `throw_err` returns puts a newline after every
  diagnostic, the last one included.
- After a failed compile or relocation the engine is gone, so `close`
  raises "Don't close twice" even though the Lua program closed nothing.
- `compile` may be called again on an open session. The model treats each call as
  one more source handed to the same engine.
- `errfunc` is installed only by `compile`. A relocation on an engine
  that never compiled therefore gathers no diagnostics.
- A compile closes the session only when `tcc_compile_string` returns
  non-zero (luacc.c:103). A compile that reports diagnostics, such as
  warnings, but succeeds returns true and leaves the session open.

## Model

| member | source | states |
|---|---|---|
| Diagnostics.EmittedAppends | luacc.c:27-36 | errfunc only appends: the earlier entries stay, the new messages follow in emission order, and a table exists once anything was emitted |
| Diagnostics.EmittedConcat | luacc.c:27-36 | reports emitted during two engine calls equal the same reports emitted during one call |
| Diagnostics.Sink.Report | luacc.c:27-36 | errfunc creates a table when the stack top is not one, then stores the message at index n+1 |
| Diagnostics.JoinLines | luacc.c:52-62 | throw_err's loop builds exactly the joined message: every entry followed by a newline, in table order |
| Diagnostics.JoinedAppend | luacc.c:57-61 | joining a concatenation of tables gives the concatenation of their messages |
| Diagnostics.SplitJoined | luacc.c:55-61 | when no entry contains a newline, splitting the message into lines gives back exactly the entries, in order |
| Tcc.Compiled | luacc.c:102 | an accepted source adds its definitions to the symbol table, overrides no other name and leaves the error-callback flag unchanged |
| Tcc.AddSymbol | luacc.c:164 | tcc_add_symbol binds the name to the address, adds only that name and leaves every other binding unchanged |
| Tcc.ReportAll | luacc.c:101-102 | the engine's diagnostics reach the stack-top table through errfunc, in order |
| Bridge.FirstRejected | luacc.c:159-162 | limport stops at the first entry whose key is not a string or whose value is not a light userdata; all entries before it pass both checks |
| Bridge.InstalledNext | luacc.c:159-166 | each accepted entry adds one symbol to the engine installed so far |
| Bridge.InstalledBinds | luacc.c:159-166 | after the accepted entries, each of their names is bound to its light userdata, no other name is added and every other binding is unchanged |
| Bridge.FirstMissing | luacc.c:139-146 | lexport stops at the first name with no symbol; every earlier name resolves to a non-NULL address |
| Bridge.WrittenSpec | luacc.c:139-149 | lexport adds no key to the caller's table; each visited key holds its symbol's address and every other key keeps its value |
| Bridge.RegisteredBinds | luacc.c:170-193 | registering a list of names binds each one to the host's function, adds exactly those names and leaves the rest unchanged |
| Bridge.ApiBinds | luacc.c:172-193 | import_sym binds exactly the nineteen Lua C API names to the host's functions and leaves every other binding and the callback flag unchanged |
| Bridge.ApiAddsNineteen | luacc.c:172-193 | on an engine that has none of the names yet, import_sym adds exactly nineteen symbols |
| Session.Check | luacc.c:68-78 | the guard passes exactly an open, unrelocated session; a closed one raises "to a closed state" even if it still holds a buffer, and a relocated one raises "to a relocated state" |
| Session.CheckExport | luacc.c:110-120 | the guard passes exactly a relocated session that still has its engine; "from a closed state" takes precedence over "from a unrelocate state" |
| Session.CompileStep | luacc.c:97-108 | compile raises, changing nothing, on a failed guard, and raises the argument-2 string error on a non-string source; otherwise it installs errfunc and logs the diagnostics; it returns true exactly when tcc_compile_string returns 0, and the engine is then the old one with errfunc installed and the source's symbols added; otherwise it returns false with the joined message and a session with neither engine nor buffer |
| Session.RelocateStep | luacc.c:80-95 | relocate succeeds exactly on an open session when both tcc_relocate calls succeed, and then returns the queried size and holds a buffer of that size; a failed query leaves no buffer, a failed fill keeps it, and either failure deletes the engine and returns the message; diagnostics are gathered only when errfunc was installed |
| Session.ImportLoop | luacc.c:158-166 | the loop succeeds exactly when every entry maps a string to a light userdata; the accepted prefix is bound, other names keep their bindings, and the raised error matches the failing check |
| Session.RejectedIffSomeBad | luacc.c:159-161 | the traversal runs to the end exactly when every entry of the table passes both checks |
| Session.ImportPrefix | luacc.c:159-166 | after the traversal stops, the engine holds the bindings of exactly the accepted prefix |
| Session.ImportStep | luacc.c:154-168 | import raises on a failed guard or a non-table argument; otherwise it keeps the session open, succeeds exactly when every entry is acceptable, and leaves the engine as the loop left it |
| Session.ImportStopsAt | luacc.c:159-166 | import's outcome when the loop stops at position i: the engine after the first i entries, with the error of entry i |
| Session.ApiStep | luacc.c:195-201 | api succeeds exactly on an open session; it binds the nineteen API names to the host's functions and leaves every other binding unchanged |
| Session.ExportStep | luacc.c:134-152 | export never changes the session and never adds a key; it succeeds exactly when every key names a symbol, and then each key holds its address; otherwise it raises "Can't find" naming the first key in traversal order that has no symbol, with the keys visited before it already overwritten and the others untouched |
| Session.ExportPrefix | luacc.c:139-149 | when the traversal stops, the visited keys hold addresses and the rest keep their values |
| Session.ExportComplete | luacc.c:139-151 | the traversal runs to the end exactly when every key names a symbol, and then every key holds its symbol's address |
| Session.CloseStep | luacc.c:203-212 | close raises "Don't close twice" exactly on a session without an engine, changing nothing; on a session with an engine it returns normally, deleting the engine and keeping the buffer |
| Session.Collected | luacc.c:13-25 | the finalizer leaves a session with neither engine nor buffer |
| Session.ClosedIsTerminal | luacc.c:68-120 | after a session loses its engine, no sequence of calls brings it back; at most the finalizer drops the buffer |
| Session.BufferNeverReplaced | luacc.c:74-91 | once a buffer is allocated, no later call replaces it; only the finalizer removes it |
| Session.BuffersAreSized | luacc.c:84-88 | every call sequence keeps a held buffer's size non-negative |
| Session.ReachableBuffersAreSized | luacc.c:84-88 | no session Lua can reach from lopen holds a buffer of negative size |
| Session.FailedFillKeepsBuffer | luacc.c:84-91 | compile followed by a relocation whose fill fails reaches the stage "closed, still holding a buffer" |
| Session.CloseAfterFailure | luacc.c:203-208 | after a failed compile, a failed relocation or a close, the next close raises "Don't close twice" |
| Session.CompileFailureMessage | luacc.c:47-62 | with no table on the stack, a failed compile returns "compile error" if the engine reported nothing, and otherwise the joined diagnostics, from which they split back in order |
| Session.CompileRelocateExport | luacc.c:80-152 | compile, relocate and export of a defined name: relocation returns the queried size and the caller's table receives the symbol's address |
| Luacc.Handle.constructor | luacc.c:214-218 | lopen: a fresh engine and no buffer, with nothing freed |
| Luacc.Handle.Delete | luacc.c:13-25 | the finalizer frees exactly what the session still holds, engine first, and never frees anything twice |
| Luacc.Handle.Close | luacc.c:203-212 | close performs CloseStep on the fields and frees only the engine, and only when there is one |
| Luacc.Handle.ThrowErr | luacc.c:38-66 | throw_err deletes the engine, keeps the buffer and returns false with the message built from the stack-top table |
| Luacc.Handle.Compile | luacc.c:97-108 | the fields, the reply and the diagnostic table after lcompile are those given by CompileStep |
| Luacc.Handle.Relocate | luacc.c:80-95 | the fields, the reply and the diagnostic table after lrelocate are those given by RelocateStep |
| Luacc.Handle.Import | luacc.c:154-168 | the fields and the reply after limport are those given by ImportStep, and nothing is freed |
| Luacc.Handle.ImportEntries | luacc.c:158-166 | the lua_next loop adds each accepted entry in traversal order and stops, with the matching error, at the first rejected entry |
| Luacc.Handle.Api | luacc.c:195-201 | the fields and the reply after lapi are those given by ApiStep |
| Luacc.Handle.Export | luacc.c:134-152 | the reply and the caller's table after lexport are those given by ExportStep |
| Luacc.Handle.Routine | luacc.c:122-132 | routine returns the address exactly when the session is relocated, the name is a string and the symbol is non-NULL; otherwise it raises the guard's error, the argument error or "Can't get" |
| Luacc.CloseAfterFailedCompile | luacc.c:203-212 | a client whose compile fails gets false; its close then raises "Don't close twice"; after the finalizer the session holds nothing and only the engine was freed, once |

## Left out

- The TCC compiler and linker themselves. `tcc_compile_string` and
  `tcc_relocate` are parameters (`CompileRun`, `RelocateRun`). These give the status,
  the diagnostics and the symbols the source defines, and the engine is
  a symbol table plus the error-callback flag.
- The Lua stack bookkeeping (pushes, pops, `lua_insert`) and
  `luaL_Buffer`. Each call's result is a `Reply` value, and the diagnostic table is
  the value at the stack top (`Log`).
- Entries of the diagnostic table that are not strings are not modelled.
  `luaL_addvalue` would convert a number to text, and a value it cannot
  convert would contribute an empty line.
- `errfunc` keeps the `lua_State` of the compile that installed it and
  writes to the top of whatever stack that is. The model gives each call
  its own stack top (`top` / `Sink`).
- The order in which `lua_next` visits a table is a parameter (`order`).
  It lists every key once.
- Session.ExportStep: requires every key of the exported table to be a
  string. `luaL_checkstring` would convert a number key and raise on other keys.
  Handle.Export has the same requirement, and the `Admissible` traces assume it too.
- `luaL_checkstring` on the source of `compile` and the name of `routine`.
  The argument is `Option<string>`: a number argument converted to a string is
  not distinguished from a string.
- `luaL_checkudata` on argument 1, the metatable and registration code
  (luacc.c:220-246), and when the garbage collector runs the finalizer.
- Calling the C function returned by `routine`: its address is returned
  and nothing is executed.
- Which addresses `import_sym` actually registers, i.e. the C API functions:
  `host` maps each name to an address.
- Allocation failure: `malloc` returning NULL (including `malloc(0)`)
  and `tcc_new` returning NULL.
- The `%p` pointer in error messages. Raised errors are the variants of
  `Raised`, each carrying the operation name or symbol name its message prints.
- Symbol names are passed to `tcc_add_symbol` and `tcc_get_symbol` as C
  strings, so libtcc sees a name only up to its first NUL character
  (luacc.c:125-126, 142-143, 162-164). The model binds and looks up the whole
  Lua string. A name with an embedded NUL therefore differs: for example,
  `export({["main\0x"] = 0})` finds `main` in the C code but raises
  "Can't find" in the model.
- Tcc.AddSymbol: a second `tcc_add_symbol` for the same name is modelled as
  an overwrite. libtcc's handling of redefinitions is outside this model.
