# libdrizzle-ruby-ffi: a verified model of the Ruby layer

`lib/drizzle/drizzle.rb` binds libdrizzle through FFI and adds a thin layer of
Ruby logic on top. This project models that layer in Dafny and treats the
protocol engine as an oracle. The status codes, the socket descriptor, the
buffered result and the error string the engine would return are parameters
of the model. The layer has four parts.

- **Return codes** (`ReturnCodes`). `drizzle_return_t` is an FFI enum without
  explicit values, so each symbol's value is its position. `check_error` and
  the buffer check in `async_result` decode a status by position and raise
  `DrizzleException("Query failed: ...")` unless the status decodes to
  `DRIZZLE_RETURN_OK`. The model proves that only status 0 passes.
- **Connection options** (`ConOptions`, `Connections.Configure`).
  `Connection#initialize` wraps a non-Array `opts` into a one-element list. It
  folds the flag values into a mask with `|` and adds
  `DRIZZLE_CON_NO_RESULT_READ`. It picks port 3306 when `:DRIZZLE_CON_MYSQL`
  is present and 4427 otherwise. It records whether the caller supplied a
  drizzle handle (`from_pool?`). `Drizzle.enum_value` looks a symbol up in
  all three enums of the library, so a `drizzle_return_t` symbol yields its
  position and a `drizzle_options_t` symbol its value. The model proves that,
  for any list that raises nowhere, a bit is set in the fold exactly when the
  value of some word has it, so order and repeats do not matter. For lists of
  `drizzle_con_options_t` symbols only, it proves three more things. The mask
  equals a reference mask of the *set* of flags named together with
  `DRIZZLE_CON_NO_RESULT_READ`. A flag's bit is set exactly when the flag was
  passed or is `DRIZZLE_CON_NO_RESULT_READ`, which is always set. The port
  agrees with the MySQL bit. That agreement fails for other symbols:
  `[:DRIZZLE_NON_BLOCKING]` gives the mask 34, whose MySQL bit is set, and
  still the port 4427. `[:DRIZZLE_RETURN_MAX]` contributes 24. A symbol
  that no enum declares makes the fold raise `TypeError`, because Ruby's
  `Integer#|` refuses `nil`.
- **Result materialisation** (`Engine`, `Results`). A buffered result is a
  class with column and row iterators and a `freed` counter. `Materialize`
  follows `Result#initialize`. It reads the insert id and the affected-row
  count. It drains the columns until the iterator yields NULL, then drains
  the rows, copying `columns.size` fields of each. Then it frees the handle
  once. Its result is `Materialized` of what the iterators had not yet
  produced. `Each` follows `Result#each`.
- **Connection state machine** (`Connections`). The class `Connection` holds
  `@callback`, `@fd`, the int behind `@retptr`, a log of the queries sent and
  a log of callback calls. The pure functions `Send` and `Complete` specify
  `async_query` and `async_result`. `Query` is `async_query` followed by
  `async_result`. Lemmas over any sequence of those calls show two things.
  The descriptor is the one from the first successful send and those calls
  never change it.
  A stored callback fires at most once.

## Model

| member | source | states |
|---|---|---|
| `ReturnCodes.Position` | lib/drizzle/drizzle.rb:7-33 | every return-code symbol has a value below 25, and the symbol at that position of the declaration is the symbol itself |
| `ReturnCodes.Decode` | lib/drizzle/drizzle.rb:55-57 | a status decodes to a symbol exactly when it lies in 0..24, and then that symbol's position is the status |
| `ReturnCodes.DecodePosition` | lib/drizzle/drizzle.rb:7-33 | decoding a symbol's value gives back the symbol |
| `ReturnCodes.IsOk` | lib/drizzle/drizzle.rb:190 | the test `return_codes[status] != :DRIZZLE_RETURN_OK` fails (the status is OK) if and only if the status is 0; the same test stands at line 210 |
| `Wrappers.QueryFailed` | lib/drizzle/drizzle.rb:211 | the exception raised on a failed status is a `DrizzleException` whose message is "Query failed: " followed by the engine's error string, which can be read back from it; the same message is built at line 193 |
| `ReturnCodes.CheckError` | lib/drizzle/drizzle.rb:209-213 | `check_error` returns if and only if the status is 0; otherwise it raises `DrizzleException` with "Query failed: " followed by the engine's error string |
| `ConOptions.Value` | lib/drizzle/drizzle.rb:35-43 | `DRIZZLE_CON_NONE` is the only flag with value 0; every value is 0 or a power of two below 64 |
| `ConOptions.ClientValue` | lib/drizzle/drizzle.rb:45-49 | `DRIZZLE_NONE` is the only `drizzle_options_t` symbol with value 0; every value is 0 or a power of two below 4 |
| `ConOptions.ReturnValueIsPosition` | lib/drizzle/drizzle.rb:7-33 | the value `enum_value` gives a `drizzle_return_t` symbol is its position in the declaration |
| `ConOptions.EnumValue` | lib/drizzle/drizzle.rb:150 | `Drizzle.enum_value` yields nil exactly for a symbol that no enum of the library declares; a connection option yields its flag value, a return code its position, a `drizzle_options_t` symbol its value; every value is below 64 |
| `ConOptions.FoldOr` | lib/drizzle/drizzle.rb:150 | the `inject` fold raises exactly when some word has no enum value; its value otherwise is below 64 |
| `ConOptions.Mask` | lib/drizzle/drizzle.rb:150 | the mask handed to `con_add_options` raises exactly when some word has no enum value; otherwise it always has the `DRIZZLE_CON_NO_RESULT_READ` bit set and is below 64 |
| `ConOptions.Normalize` | lib/drizzle/drizzle.rb:145 | a single non-Array option becomes the one-element list, and an Array is used unchanged |
| `ConOptions.Port` | lib/drizzle/drizzle.rb:152 | the port is 3306 if and only if `:DRIZZLE_CON_MYSQL` is among the options, and 4427 otherwise |
| `ConOptions.FoldOrBit` | lib/drizzle/drizzle.rb:150 | for a list that raises nowhere, the left `inject` fold with bitwise OR has any given bit set exactly when the value of some word of the list has it |
| `ConOptions.MaskAnyBit` | lib/drizzle/drizzle.rb:150 | for a list that raises nowhere, a bit is set in the connection mask exactly when it is the `DRIZZLE_CON_NO_RESULT_READ` bit or the value of some word has it |
| `ConOptions.ValueOverlap` | lib/drizzle/drizzle.rb:35-43 | two flags other than `DRIZZLE_CON_NONE` share a bit exactly when they are the same flag |
| `ConOptions.ConOptionBit` | lib/drizzle/drizzle.rb:35-43 | in a list of connection-option symbols, some word has a given flag's bit exactly when that flag's symbol is in the list |
| `ConOptions.MaskBit` | lib/drizzle/drizzle.rb:150 | for a list of connection-option symbols that raises nowhere, a flag's bit is set in the mask if and only if the flag was passed or is `DRIZZLE_CON_NO_RESULT_READ` |
| `ConOptions.MaskIsSetMask` | lib/drizzle/drizzle.rb:150 | for a list of connection-option symbols, the mask raises exactly when some word has no enum value, and is otherwise the reference mask of the set of flags named together with `DRIZZLE_CON_NO_RESULT_READ` |
| `ConOptions.MaskOrderFree` | lib/drizzle/drizzle.rb:150 | two option lists with the same words, in any order and with any repeats, give the same mask or both raise |
| `ConOptions.PortAgreesWithMask` | lib/drizzle/drizzle.rb:150-152 | for a list of connection-option symbols that raises nowhere, the port is 3306 exactly when the MySQL bit of the mask is set |
| `ConOptions.NonBlockingSetsMysqlBit` | lib/drizzle/drizzle.rb:45-49 | the options `[:DRIZZLE_NON_BLOCKING]` give the mask 34, which has the MySQL bit, and the port 4427 |
| `ConOptions.ReturnMaxSetsTwoFlags` | lib/drizzle/drizzle.rb:32 | the options `[:DRIZZLE_RETURN_MAX]` give the mask 56: its value 24 switches on the RAW_SCRAMBLE and READY bits |
| `Connections.Configure` | lib/drizzle/drizzle.rb:144-155 | `initialize` raises `TypeError` exactly when a normalised option has no enum value; otherwise the settings hold the normalised options and their mask, the port is 3306 when `:DRIZZLE_CON_MYSQL` is among them and 4427 otherwise, `from_pool` is true exactly when a handle was supplied, and host, user, pass and db are unchanged |
| `Connections.Connection.Open` | lib/drizzle/drizzle.rb:144-160 | `Connection.new` raises as `Configure` does; otherwise it returns a fresh connection with those settings, no callback, no descriptor, a zeroed return pointer, and `from_pool?` true exactly when a handle was supplied |
| `Connections.Pick` | lib/drizzle/drizzle.rb:171 | the defaulting of `proc` to `blk` keeps a given proc and otherwise takes the block; the result is nil only when both are nil; the same line stands at 164 |
| `Connections.Connection.FromPool` | lib/drizzle/drizzle.rb:158-160 | `from_pool?` reports the flag `initialize` set, which by `Configure` and `Open` is true exactly when a drizzle handle was supplied |
| `Connections.Connection.constructor` | lib/drizzle/drizzle.rb:146-154 | a connection starts with the given settings and the initial state |
| `Engine.ResultHandle.constructor` | lib/drizzle/drizzle.rb:189 | a buffered result starts with both iterators at the beginning and has not been freed |
| `Engine.ResultHandle.ColumnNext` | lib/drizzle/drizzle.rb:109-110 | the column iterator yields the next column name in server order and advances, or yields NULL once all columns are produced |
| `Engine.ResultHandle.RowNext` | lib/drizzle/drizzle.rb:114 | the row iterator yields the next row in order and advances, or yields NULL at the end |
| `Engine.ResultHandle.Free` | lib/drizzle/drizzle.rb:119 | freeing a result adds one to its free count |
| `Results.CopyRows` | lib/drizzle/drizzle.rb:114-116 | the copy has one row per engine row, each exactly `n` fields long |
| `Results.CopyRowsAt` | lib/drizzle/drizzle.rb:115 | copied row i is the first `n` fields of engine row i |
| `Results.Materialized` | lib/drizzle/drizzle.rb:102-120 | the Result's columns are the engine's columns in order; it has one row per engine row in order, each with exactly `columns.size` fields taken from the front of that row; insert id and affected rows are the handle's |
| `Results.MaterializedLossless` | lib/drizzle/drizzle.rb:115 | when every engine row has one field per column, turning the Result back into a wire record gives the engine's record unchanged |
| `Results.Materialize` | lib/drizzle/drizzle.rb:102-120 | `Result.new` returns `Materialized` of what the iterators had not yet produced, leaves both iterators drained, and frees the handle exactly once |
| `Results.Each` | lib/drizzle/drizzle.rb:122-126 | `each` yields every stored row once, in stored order, only when a block is given, and returns the stored rows; the outcome depends only on the Result, so every call gives the same sequence |
| `Connections.Send` | lib/drizzle/drizzle.rb:170-178 | the query is handed to the engine and its status stored; `async_query` raises exactly when the status is not 0, leaving callback and descriptor unchanged; on success the callback becomes `proc` or else `blk` (possibly nil) and the return value is the stored descriptor, which is the earlier one if there was one and the engine's otherwise |
| `Connections.Complete` | lib/drizzle/drizzle.rb:181-201 | on read failure `async_result` raises without freeing and without touching the callback; on buffer failure it frees the result once and raises, with the callback neither fired nor cleared; on success it returns `Materialized` of the result, frees once, fires the stored callback once with that Result, and clears it |
| `Connections.FdIsFirstSent` | lib/drizzle/drizzle.rb:177 | after any sequence of calls the descriptor is the one already stored, or else the one from the first successful send, and it never changes once set |
| `Connections.FiresAtMostOnce` | lib/drizzle/drizzle.rb:175-199 | over any sequence of calls past callback calls are never undone, and the calls made plus the callback still stored never exceed the callbacks stored by successful sends |
| `Connections.QueryFiresOwnCallback` | lib/drizzle/drizzle.rb:163-167 | when both steps of `query` succeed, its result is the materialised Result, the callback it was given fires with that Result, and no callback is left stored |
| `Connections.Connection.AsyncQuery` | lib/drizzle/drizzle.rb:170-178 | the new state and the outcome are exactly those of `Send` |
| `Connections.Connection.AsyncResult` | lib/drizzle/drizzle.rb:181-201 | the new state, the outcome and the number of frees of the handle are exactly those of `Complete`; on either failure the handle's iterators stay at the start, and on success both are drained |
| `Connections.Connection.Query` | lib/drizzle/drizzle.rb:163-167 | `query` is `Send` with `proc` or else `blk`; if that raises, the exception propagates and the handle is untouched; otherwise it is followed by `Complete`; the handle's iterators are drained exactly when all three steps succeed, and stay at the start otherwise |

## Left out

- The FFI declarations and `ffi_lib` (lib/drizzle/drizzle.rb:2-3, 64-97) are foreign calls. The engine's replies are parameters. The three iterator calls and `result_free` are the `Engine.ResultHandle` class.
- The `Drizzleptr` and `Connptr` AutoPointer finalisers are left out. They release native handles from the garbage collector.
- `em_query` and `EMHandler` are left out. They are EventMachine reactor plumbing.
- The socket and wire-protocol behaviour behind `query_str`, `result_read` and `result_buffer` is left out, and so is what `Drizzle.error` says. The error string is an opaque parameter.
- The engine calls in `initialize` (`con_create`, `con_add_options`, `con_set_auth`, `con_set_tcp`, `con_set_db`) are not modelled as calls. Their arguments are the fields of the `Settings` record.
- `Drizzle.options` and `Drizzle.con_options` (lib/drizzle/drizzle.rb:51-61) are left out; the core never calls them. The `drizzle_options_t` enum (lines 45-49) is modelled only as a source of symbols that `enum_value` resolves in the option fold.
- Connections.Complete: the callback call is one atomic event that always returns. In Ruby it runs arbitrary code. If it raises, the exception propagates and `@callback` stays set. If it calls `async_query` or `em_query` on the same connection, that stores a new `@callback`, which the clearing that follows then sets to nil, so the follow-up query's callback never fires.
- Connections.FdIsFirstSent: the attribute writers (`fd=`, `host=`, …) are not modelled. After `c.fd = nil` the next `async_query` reads `con_fd` again, so the descriptor is fixed only over `async_query` and `async_result` calls.
- Results.Each: `Result` is modelled as an immutable value, and aliasing is not captured. `attr_reader` exposes the stored `columns` and `rows` arrays, and `each` yields the stored row arrays themselves. A caller or a block can mutate them, and then later calls see the changed rows.
- Results.Each: the block always returns. In Ruby a `break` in the block stops `each` early, which then returns the break value instead of `@rows`, and an exception raised in the block propagates out of `each`.
- Connections.Connection.FromPool: without a drizzle handle `initialize` never assigns `@from_pool`, so Ruby's `from_pool?` returns `nil`; the model returns `false`, the value Ruby treats the same way in a condition.
- Results.Materialize: it requires that every engine row has at least one field per column. `get_array_of_string` reading past the end of a row would be undefined behaviour in the C library, and libdrizzle never hands out such rows.
- Connections.Connection.AsyncResult: it requires the handle from `result_read` to be freshly buffered, with both iterators at the start. That is the engine's promise about a new result, not a demand on Ruby callers.
- Results.Materialize: column names become Ruby symbols (`to_sym`). The model keeps them as strings, and symbols with equal names are equal.
- The integer widths of the statuses and the descriptor are left out (they are unbounded `int`). The mask is a 32-bit vector, which holds every flag value. Insert id and affected rows are unsigned 64-bit.
- `lib/drizzle/drizzle.rb` has no connection pool and no busy or pending checks: a second `async_query` without `async_result` just stores the new callback, and `async_result` with nothing outstanding just asks the engine for a result.
