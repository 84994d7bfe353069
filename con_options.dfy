/**
 * Connection options: the `drizzle_con_options_t` flags, the bitmask that
 * `Connection#initialize` folds from the option words it is given, and the
 * TCP port it chooses. `Drizzle.enum_value` looks a symbol up in every enum
 * the library declares, so the symbols of `drizzle_return_t` and
 * `drizzle_options_t` also have values in the fold.
 */
module ConOptions {
  import opened Wrappers
  import opened ReturnCodes

  /** The symbols of `drizzle_con_options_t`. */
  datatype ConOption =
    | ConNone
    | ConAllocated
    | ConMysql
    | ConRawPacket
    | ConRawScramble
    | ConReady
    | ConNoResultRead

  /** The flag value of each symbol: `ConNone` is 0, the others are distinct powers of two. */
  function Value(o: ConOption): (v: bv32)
    ensures o == ConNone <==> v == 0
    ensures v & (v - 1) == 0 && v < 64
  {
    match o
    case ConNone => 0
    case ConAllocated => 1 << 0
    case ConMysql => 1 << 1
    case ConRawPacket => 1 << 2
    case ConRawScramble => 1 << 3
    case ConReady => 1 << 4
    case ConNoResultRead => 1 << 5
  }

  /** The symbols of `drizzle_options_t`, the library's client-option enum. */
  datatype ClientOption = DrizzleNone | DrizzleAllocated | DrizzleNonBlocking

  /** The value of each `drizzle_options_t` symbol. */
  function ClientValue(o: ClientOption): (v: bv32)
    ensures o == DrizzleNone <==> v == 0
    ensures v & (v - 1) == 0 && v < 4
  {
    match o
    case DrizzleNone => 0
    case DrizzleAllocated => 1 << 0
    case DrizzleNonBlocking => 1 << 1
  }

  /** The value `enum_value` gives a `drizzle_return_t` symbol, as a bit vector. */
  function ReturnValue(c: ReturnCode): (v: bv32)
    ensures v < 32
  {
    match c
    case ReturnOk => 0
    case ReturnIoWait => 1
    case ReturnPause => 2
    case ReturnRowBreak => 3
    case ReturnMemory => 4
    case ReturnErrno => 5
    case ReturnInternalError => 6
    case ReturnGetAddrInfo => 7
    case ReturnNotReady => 8
    case ReturnBadPacketNumber => 9
    case ReturnBadHandshakePacket => 10
    case ReturnBadPacket => 11
    case ReturnProtocolNotSupported => 12
    case ReturnUnexpectedData => 13
    case ReturnNoScramble => 14
    case ReturnAuthFailed => 15
    case ReturnNullSize => 16
    case ReturnErrorCode => 17
    case ReturnTooManyColumns => 18
    case ReturnRowEnd => 19
    case ReturnEof => 20
    case ReturnCouldNotConnect => 21
    case ReturnNoActiveConnections => 22
    case ReturnServerGone => 23
    case ReturnMax => 24
  }

  /** That value is the symbol's position in the return-code enum. */
  lemma ReturnValueIsPosition(c: ReturnCode)
    ensures ReturnValue(c) as int == Position(c)
  {
  }

  /** A symbol of one of the library's two other enums. */
  datatype ForeignSymbol = ReturnSymbol(code: ReturnCode) | ClientSymbol(flag: ClientOption)

  /**
   * An option word as a caller passes it: a connection-option symbol, a
   * symbol of another enum of the library, or a symbol no enum declares.
   */
  datatype Word = Known(option: ConOption) | Foreign(symbol: ForeignSymbol) | Unknown(name: string)

  /** The `opts` argument: an Array of words, or a single word that is not an Array. */
  datatype OptsArg = Single(word: Word) | Many(words: seq<Word>)

  /** `opts.is_a?(Array) ? opts : [opts]` */
  function Normalize(a: OptsArg): (ws: seq<Word>)
    ensures a.Single? ==> ws == [a.word]
    ensures a.Many? ==> ws == a.words
  {
    match a
    case Single(w) => [w]
    case Many(ws) => ws
  }

  /**
   * `Drizzle.enum_value(o)`: nil for a symbol no enum declares; otherwise the
   * flag value of a connection option, the position of a return code, or the
   * value of a client option.
   */
  function EnumValue(w: Word): (v: Option<bv32>)
    ensures v.None? <==> w.Unknown?
    ensures w.Known? ==> v == Some(Value(w.option))
    ensures w.Foreign? && w.symbol.ReturnSymbol? ==> v == Some(ReturnValue(w.symbol.code))
    ensures w.Foreign? && w.symbol.ClientSymbol? ==> v == Some(ClientValue(w.symbol.flag))
    ensures v.Some? ==> v.value < 64
  {
    match w
    case Known(o) => Some(Value(o))
    case Foreign(ReturnSymbol(c)) => Some(ReturnValue(c))
    case Foreign(ClientSymbol(o)) => Some(ClientValue(o))
    case Unknown(_) => None
  }

  /** The value a word contributes to the fold, 0 when it has none. */
  function Bits(w: Word): (v: bv32)
    ensures v < 64
  {
    match EnumValue(w)
    case None => 0
    case Some(v) => v
  }

  /** `opts.inject(0) { |i, o| i | Drizzle.enum_value(o) }`, a left fold; `i | nil` raises. */
  function FoldOr(ws: seq<Word>): (r: Option<bv32>)
    ensures r.None? <==> HasUnknown(ws)
    ensures r.Some? ==> r.value < 64
  {
    if ws == [] then Some(0)
    else
      assert ws[..|ws| - 1] + [ws[|ws| - 1]] == ws;
      AppendWord(ws[..|ws| - 1], ws[|ws| - 1]);
      match FoldOr(ws[..|ws| - 1])
      case None => None
      case Some(i) =>
        match EnumValue(ws[|ws| - 1])
        case None => None
        case Some(v) => OrBelow64(i, v); Some(i | v)
  }

  /** The mask handed to `con_add_options`: the fold, with `DRIZZLE_CON_NO_RESULT_READ` added. */
  function Mask(ws: seq<Word>): (r: Option<bv32>)
    ensures r.None? <==> HasUnknown(ws)
    ensures r.Some? ==> r.value & Value(ConNoResultRead) != 0 && r.value < 64
  {
    match FoldOr(ws)
    case None => None
    case Some(m) => Some(m | Value(ConNoResultRead))
  }

  const MysqlPort: int := 3306
  const DrizzlePort: int := 4427

  /** The TCP port given to `con_set_tcp`. */
  function Port(ws: seq<Word>): (p: int)
    ensures p == MysqlPort <==> Known(ConMysql) in ws
    ensures p == MysqlPort || p == DrizzlePort
  {
    if Known(ConMysql) in ws then MysqlPort else DrizzlePort
  }

  /** Some word of the list is a symbol no enum declares. */
  predicate HasUnknown(ws: seq<Word>)
  {
    exists w :: w in ws && w.Unknown?
  }

  /** Every word of the list is a connection-option symbol or a symbol no enum declares. */
  predicate NoForeign(ws: seq<Word>)
  {
    forall w :: w in ws ==> !w.Foreign?
  }

  /** The value a word contributes has a bit in common with `b`. */
  predicate Shares(w: Word, b: bv32)
  {
    Bits(w) & b != 0
  }

  /** Some word of the list contributes a value that has a bit in common with `b`. */
  predicate AnyBit(ws: seq<Word>, b: bv32)
  {
    exists w :: w in ws && Shares(w, b)
  }

  /** ORing two values below 64 stays below 64. */
  lemma OrBelow64(i: bv32, v: bv32)
    requires i < 64 && v < 64
    ensures i | v < 64
  {
  }

  /** The connection-option flags named, forgetting order and repetition. */
  function KnownSet(ws: seq<Word>): set<ConOption>
  {
    set w | w in ws && w.Known? :: w.option
  }

  /** The mask with a bit for each of the six flags that is switched on. */
  function Flags(alloc: bool, mysql: bool, rawPacket: bool, rawScramble: bool, ready: bool, noResultRead: bool): bv32
  {
    (if alloc then Value(ConAllocated) else 0)
    | (if mysql then Value(ConMysql) else 0)
    | (if rawPacket then Value(ConRawPacket) else 0)
    | (if rawScramble then Value(ConRawScramble) else 0)
    | (if ready then Value(ConReady) else 0)
    | (if noResultRead then Value(ConNoResultRead) else 0)
  }

  /** The reference mask of a set of connection-option flags: one bit per flag in the set. */
  function SetMask(s: set<ConOption>): bv32
  {
    Flags(ConAllocated in s, ConMysql in s, ConRawPacket in s, ConRawScramble in s, ConReady in s, ConNoResultRead in s)
  }

  /** Each flag's bit of `Flags` reads back its switch, and no bit from 64 up is set. */
  lemma FlagsBits(a: bool, b: bool, c: bool, d: bool, e: bool, f: bool)
    ensures Flags(a, b, c, d, e, f) < 64
    ensures Flags(a, b, c, d, e, f) & Value(ConAllocated) != 0 <==> a
    ensures Flags(a, b, c, d, e, f) & Value(ConMysql) != 0 <==> b
    ensures Flags(a, b, c, d, e, f) & Value(ConRawPacket) != 0 <==> c
    ensures Flags(a, b, c, d, e, f) & Value(ConRawScramble) != 0 <==> d
    ensures Flags(a, b, c, d, e, f) & Value(ConReady) != 0 <==> e
    ensures Flags(a, b, c, d, e, f) & Value(ConNoResultRead) != 0 <==> f
  {
  }

  /** A bit of an OR is set exactly when it is set in one of the operands. */
  lemma OrBit(x: bv32, y: bv32, b: bv32)
    ensures (x | y) & b != 0 <==> x & b != 0 || y & b != 0
  {
  }

  /** Two values below 64 that agree on the six flag bits are equal. */
  lemma SixBitsEqual(x: bv32, y: bv32)
    requires x < 64 && y < 64
    requires forall o :: o != ConNone ==> (x & Value(o) != 0 <==> y & Value(o) != 0)
    ensures x == y
  {
    assert x & Value(ConAllocated) != 0 <==> y & Value(ConAllocated) != 0;
    assert x & Value(ConMysql) != 0 <==> y & Value(ConMysql) != 0;
    assert x & Value(ConRawPacket) != 0 <==> y & Value(ConRawPacket) != 0;
    assert x & Value(ConRawScramble) != 0 <==> y & Value(ConRawScramble) != 0;
    assert x & Value(ConReady) != 0 <==> y & Value(ConReady) != 0;
    assert x & Value(ConNoResultRead) != 0 <==> y & Value(ConNoResultRead) != 0;
  }

  /** The flag values are distinct powers of two: two real flags share a bit only if they are the same flag. */
  lemma ValueOverlap(o: ConOption, p: ConOption)
    requires o != ConNone && p != ConNone
    ensures Value(o) & Value(p) != 0 <==> o == p
  {
  }

  /**
   * The fold raises exactly when some word is a symbol no enum declares;
   * otherwise any bit is set in it exactly when some word of the list
   * contributes that bit, so the fold does not depend on order or repeats.
   */
  lemma {:induction false} FoldOrBit(ws: seq<Word>, b: bv32)
    requires !HasUnknown(ws)
    ensures FoldOr(ws).Some?
    ensures FoldOr(ws).value & b != 0 <==> AnyBit(ws, b)
  {
    if ws == [] {
      assert !AnyBit(ws, b);
    } else {
      var init, last := ws[..|ws| - 1], ws[|ws| - 1];
      assert init + [last] == ws;
      FoldOrLast(init, last);
      FoldOrBit(init, b);
      FoldOrBitStep(init, last, b, FoldOr(ws), FoldOr(init).value);
    }
  }

  /**
   * The inductive step of `FoldOrBit`: if `z` ORs the last word's value into
   * `x`, whose bit `b` tells whether the words before it contribute `b`, then
   * bit `b` of `z` tells whether the whole list does.
   */
  lemma FoldOrBitStep(init: seq<Word>, last: Word, b: bv32, z: Option<bv32>, x: bv32)
    requires z == Some(x | Bits(last))
    requires x & b != 0 <==> AnyBit(init, b)
    ensures z.Some? && (z.value & b != 0 <==> AnyBit(init + [last], b))
  {
    AnyBitAppend(init, last, b);
    OrStep(z, x, Bits(last), b, AnyBit(init, b), AnyBit(init + [last], b));
  }

  /** If `z` is `x | y`, and bit `b` of `x` is `p`, then bit `b` of `z` is `p` or bit `b` of `y`. */
  lemma OrStep(z: Option<bv32>, x: bv32, y: bv32, b: bv32, p: bool, p': bool)
    requires z == Some(x | y)
    requires x & b != 0 <==> p
    requires p' <==> p || y & b != 0
    ensures z.Some? && (z.value & b != 0 <==> p')
  {
    OrBit(x, y, b);
  }

  /** The fold of a list that raises nowhere ORs the last word's value into the fold of the rest. */
  lemma FoldOrLast(init: seq<Word>, last: Word)
    ensures HasUnknown(init + [last]) <==> HasUnknown(init) || last.Unknown?
    ensures !HasUnknown(init + [last]) ==> FoldOr(init + [last]) == Some(FoldOr(init).value | Bits(last))
  {
    var ws := init + [last];
    assert ws[..|ws| - 1] == init;
    AppendWord(init, last);
  }

  /** Appending a word to a list adds it to the words that may be unknown. */
  lemma AppendWord(init: seq<Word>, last: Word)
    ensures HasUnknown(init + [last]) <==> HasUnknown(init) || last.Unknown?
  {
    var ws := init + [last];
    assert forall w :: w in ws <==> w in init || w == last;
    if HasUnknown(init) {
      var w :| w in init && w.Unknown?;
      assert w in ws;
    }
    assert last in ws;
  }

  /** Appending a word to a list adds its bits to the bits the list contributes. */
  lemma AnyBitAppend(init: seq<Word>, last: Word, b: bv32)
    ensures AnyBit(init + [last], b) <==> AnyBit(init, b) || Shares(last, b)
  {
    var ws := init + [last];
    if AnyBit(ws, b) {
      var w :| w in ws && Shares(w, b);
      if w != last {
        assert w in init;
      }
    }
    if AnyBit(init, b) {
      var w :| w in init && Shares(w, b);
      assert w in ws;
    }
    if Shares(last, b) {
      assert last in ws;
    }
  }

  /** Any bit of the connection mask is NO_RESULT_READ's or a bit some word contributes. */
  lemma MaskAnyBit(ws: seq<Word>, b: bv32)
    requires !HasUnknown(ws)
    ensures Mask(ws).Some?
    ensures Mask(ws).value & b != 0 <==> Value(ConNoResultRead) & b != 0 || AnyBit(ws, b)
  {
    FoldOrBit(ws, b);
    OrBit(FoldOr(ws).value, Value(ConNoResultRead), b);
  }

  /** Among connection-option symbols, a real flag's bit is contributed exactly when the flag is named. */
  lemma ConOptionBit(ws: seq<Word>, o: ConOption)
    requires NoForeign(ws) && o != ConNone
    ensures AnyBit(ws, Value(o)) <==> Known(o) in ws
  {
    if AnyBit(ws, Value(o)) {
      var w :| w in ws && Shares(w, Value(o));
      assert w.Known? && w.option != ConNone;
      ValueOverlap(w.option, o);
    }
    if Known(o) in ws {
      assert Bits(Known(o)) & Value(o) != 0;
    }
  }

  /**
   * Bit by bit, for lists of connection-option symbols: a flag's bit is set
   * in the mask exactly when the flag was passed, or is NO_RESULT_READ, which
   * is always added.
   */
  lemma MaskBit(ws: seq<Word>, o: ConOption)
    requires !HasUnknown(ws) && NoForeign(ws) && o != ConNone
    ensures Mask(ws).Some?
    ensures Mask(ws).value & Value(o) != 0 <==> o == ConNoResultRead || Known(o) in ws
  {
    MaskAnyBit(ws, Value(o));
    ValueOverlap(ConNoResultRead, o);
    ConOptionBit(ws, o);
  }

  /** A flag is in the set of flags named exactly when the list holds its symbol. */
  lemma KnownSetHas(ws: seq<Word>, o: ConOption)
    ensures o in KnownSet(ws) <==> Known(o) in ws
  {
    if Known(o) in ws {
      assert o in KnownSet(ws);
    }
    if o in KnownSet(ws) {
      var w :| w in ws && w.Known? && w.option == o;
    }
  }

  /** For lists of connection-option symbols, the mask is determined by the set of flags named. */
  lemma MaskIsSetMask(ws: seq<Word>)
    requires NoForeign(ws)
    ensures Mask(ws) == if HasUnknown(ws) then None else Some(SetMask(KnownSet(ws) + {ConNoResultRead}))
  {
    if !HasUnknown(ws) {
      var s := KnownSet(ws) + {ConNoResultRead};
      forall o | o != ConNone ensures Mask(ws).value & Value(o) != 0 <==> o in s {
        MaskBit(ws, o);
        KnownSetHas(ws, o);
      }
      var m := Mask(ws).value;
      var want := SetMask(s);
      FlagsBits(ConAllocated in s, ConMysql in s, ConRawPacket in s, ConRawScramble in s, ConReady in s, ConNoResultRead in s);
      SixBitsEqual(m, want);
    }
  }

  /** Two lists that hold the same words contribute the same bits. */
  lemma SameWordsAnyBit(x: seq<Word>, y: seq<Word>, b: bv32)
    requires forall w :: w in x <==> w in y
    ensures AnyBit(x, b) <==> AnyBit(y, b)
  {
    if AnyBit(x, b) {
      var w :| w in x && Shares(w, b);
      assert w in y;
    }
    if AnyBit(y, b) {
      var w :| w in y && Shares(w, b);
      assert w in x;
    }
  }

  /** Two lists that hold the same words and raise nowhere have the same bits in their masks. */
  lemma SameWordsMaskBit(x: seq<Word>, y: seq<Word>, b: bv32)
    requires forall w :: w in x <==> w in y
    requires !HasUnknown(x) && !HasUnknown(y)
    ensures Mask(x).Some? && Mask(y).Some?
    ensures Mask(x).value & b != 0 <==> Mask(y).value & b != 0
  {
    MaskAnyBit(x, b);
    MaskAnyBit(y, b);
    SameWordsAnyBit(x, y, b);
  }

  /** Two option lists that hold the same words, in any order and with any repeats, give the same mask or both raise. */
  lemma MaskOrderFree(x: seq<Word>, y: seq<Word>)
    requires forall w :: w in x <==> w in y
    ensures Mask(x) == Mask(y)
  {
    assert HasUnknown(x) <==> HasUnknown(y);
    if !HasUnknown(x) {
      forall o | o != ConNone ensures Mask(x).value & Value(o) != 0 <==> Mask(y).value & Value(o) != 0 {
        SameWordsMaskBit(x, y, Value(o));
      }
      SixBitsEqual(Mask(x).value, Mask(y).value);
    }
  }

  /** For lists of connection-option symbols, the port is the MySQL one exactly when the MySQL bit is set. */
  lemma PortAgreesWithMask(ws: seq<Word>)
    requires !HasUnknown(ws) && NoForeign(ws)
    ensures Mask(ws).Some?
    ensures Port(ws) == MysqlPort <==> Mask(ws).value & Value(ConMysql) != 0
  {
    MaskBit(ws, ConMysql);
  }

  /**
   * `:DRIZZLE_NON_BLOCKING` has the value 2, which is the MySQL bit, yet the
   * port rule looks for the symbol `:DRIZZLE_CON_MYSQL` and so picks 4427.
   */
  lemma NonBlockingSetsMysqlBit()
    ensures Mask([Foreign(ClientSymbol(DrizzleNonBlocking))]) == Some(34)
    ensures Port([Foreign(ClientSymbol(DrizzleNonBlocking))]) == DrizzlePort
  {
    var ws := [Foreign(ClientSymbol(DrizzleNonBlocking))];
    assert ws[..0] == [];
  }

  /** `:DRIZZLE_RETURN_MAX` has the value 24, which switches on RAW_SCRAMBLE and READY. */
  lemma ReturnMaxSetsTwoFlags()
    ensures Mask([Foreign(ReturnSymbol(ReturnMax))]) == Some(56)
  {
    var ws := [Foreign(ReturnSymbol(ReturnMax))];
    assert ws[..0] == [];
  }
}
