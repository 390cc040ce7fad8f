/** `struct mstream` of c-ini/c-ini.c: the growable byte buffer the code
    generator writes its output through. `address` is the buffer, whose
    length is `capacity`; `write_ptr` bytes of it are written. The routines
    append to the written part: one byte, a decimal integer, a C string, a
    string view, and the subset of `printf` that `mstream_fmt` implements. */
module MStream {
  import opened Support
  import opened Lexer
  import Schema

  // ---------------------------------------------------------------------
  // Capacity growth

  /** The capacity `mstream_grow` reaches from `cap` when `need` bytes must
      fit: an empty buffer gets 32 bytes, then the capacity doubles until
      it is large enough. */
  function GrownCapacity(cap: nat, need: int): nat
    decreases if cap < need then need - cap else 0
  {
    if need <= cap then cap else GrownCapacity(if cap == 0 then 32 else 2 * cap, need)
  }

  /** Growing makes room for what is needed, never shrinks, and, when it
      has to grow at all, overshoots by less than a factor of two (or stops
      at the first 32 bytes). */
  lemma {:induction false} GrowthIsBounded(cap: nat, need: int)
    ensures var r := GrownCapacity(cap, need);
            && cap <= r && need <= r
            && (need <= cap ==> r == cap)
            && (cap < need ==> r < 2 * need || r == 32)
    decreases if cap < need then need - cap else 0
  {
    if cap < need {
      var next := if cap == 0 then 32 else 2 * cap;
      GrowthIsBounded(next, need);
    }
  }

  // ---------------------------------------------------------------------
  // Decimal integers

  function DigitChar(d: nat): (c: byte)
    requires d < 10
    ensures IsDigit(c) && DigitValue(c) == d
  {
    ('0' as int + d) as char
  }

  /** The decimal digits of `m`, most significant first, with no leading
      zero; zero is the single digit `0`. */
  function Digits(m: nat): seq<byte>
  {
    if m < 10 then [DigitChar(m)] else Digits(m / 10) + [DigitChar(m % 10)]
  }

  /** What `mstream_write_int` writes for `n`: a minus sign for a negative
      number, then the digits of its magnitude. */
  function DecimalString(n: int): seq<byte>
  {
    if n < 0 then ['-'] + Digits(-n) else Digits(n)
  }

  function Pow10(k: nat): (p: nat)
    ensures p >= 1
  {
    if k == 0 then 1 else 10 * Pow10(k - 1)
  }

  /** The digits of `m` are decimal digits that spell `m` back as the
      lexer accumulates them, the first one is `0` only for zero itself,
      and there are at most `k` of them when `m` is below `10^k`. */
  lemma {:induction false} DigitsSpellValue(m: nat, k: nat)
    ensures var s := Digits(m);
            && 1 <= |s|
            && (forall i | 0 <= i < |s| :: IsDigit(s[i]))
            && DecimalValue(s) == m
            && (s[0] == '0' <==> m == 0)
            && (0 < k && m < Pow10(k) ==> |s| <= k)
    decreases m
  {
    var s := Digits(m);
    if m >= 10 {
      var prefix := Digits(m / 10);
      DigitsSpellValue(m / 10, if k > 0 then k - 1 else 0);
      assert s[..|s| - 1] == prefix;
      assert s[0] == prefix[0];
      if 0 < k && m < Pow10(k) {
        assert k > 1;
        assert m / 10 < Pow10(k - 1);
      }
    }
  }

  /** The shape of what `mstream_write_int` writes for a C `int`: at most 11
      bytes; a leading `-` exactly for negative numbers, followed by decimal
      digits without a leading zero that spell the magnitude; `0` for zero. */
  lemma DecimalStringShape(n: int)
    requires Schema.Int32Min <= n <= Schema.Int32Max
    ensures var s := DecimalString(n);
            var digits := if n < 0 then s[1..] else s;
            var magnitude := if n < 0 then -n else n;
            && 1 <= |s| <= 11
            && (s[0] == '-' <==> n < 0)
            && (forall i | 0 <= i < |digits| :: IsDigit(digits[i]))
            && DecimalValue(digits) == magnitude
            && (n == 0 <==> s == "0")
            && (n != 0 ==> digits[0] != '0')
  {
    var magnitude := if n < 0 then -n else n;
    assert Pow10(10) == 10000000000;
    DigitsSpellValue(magnitude, 10);
    if n < 0 {
      assert DecimalString(n)[1..] == Digits(-n);
    } else if n == 0 {
      assert Digits(0) == "0";
    }
  }

  /** The digit loop of `mstream_write_int` starts from `10^9`, the
      leading power of ten of the largest magnitude of a C `int`. */
  lemma PowersOfTen()
    ensures Pow10(9) == 1000000000
  {
  }

  // ---------------------------------------------------------------------
  // Reading written numbers back with the schema lexer

  /** The run of digits that starts at `i` ends where the digits stop. */
  lemma {:induction false} DigitRunEndsAt(data: seq<byte>, i: nat, j: nat)
    requires i <= j <= |data|
    requires forall k | i <= k < j :: IsDigit(data[k])
    requires j == |data| || !IsDigit(data[j])
    ensures DigitRunEnd(data, i) == j
    decreases j - i
  {
    if i < j {
      DigitRunEndsAt(data, i + 1, j);
    }
  }

  /** A non-negative number written by `mstream_write_int` and followed by
      anything but a digit or `.` (or by the end of the input) is read back
      by `scan_next` as an integer literal of the same value. */
  lemma WrittenNumberReadsBack(data: seq<byte>, c: Cursor, n: nat)
    requires c.head + |DecimalString(n)| <= |data|
    requires data[c.head..c.head + |DecimalString(n)|] == DecimalString(n)
    requires var e := c.head + |DecimalString(n)|;
             e == |data| || (!IsDigit(data[e]) && data[e] != '.')
    ensures Next(data, c) == Lexed(TokInteger, Cursor(c.head, c.head + |DecimalString(n)|, LexInt(n)))
  {
    var e := c.head + |Digits(n)|;
    WrittenDigitsRun(data, c.head, n);
    DigitsAreNumbers(data, c);
    assert data[c.head..e] == Digits(n);
  }

  /** The digits of `n` written at `h` form the run of digits there, and
      it spells `n`. */
  lemma WrittenDigitsRun(data: seq<byte>, h: nat, n: nat)
    requires h + |Digits(n)| <= |data| && data[h..h + |Digits(n)|] == Digits(n)
    requires var e := h + |Digits(n)|; e == |data| || !IsDigit(data[e])
    ensures h < |data| && IsDigit(data[h])
    ensures DigitRunEnd(data, h) == h + |Digits(n)| && DecimalValue(data[h..h + |Digits(n)|]) == n
  {
    var s := Digits(n);
    var e := h + |s|;
    DigitsSpellValue(n, 0);
    forall k | h <= k < e ensures IsDigit(data[k]) {
      assert data[k] == s[k - h];
    }
    DigitRunEndsAt(data, h, e);
  }

  /** A negative number written by `mstream_write_int` is not read back as
      a number: `scan_next` takes the `-` for the start of an identifier. */
  lemma NegativeNumberReadsAsIdentifier(data: seq<byte>, c: Cursor, n: int)
    requires n < 0
    requires c.head + |DecimalString(n)| <= |data|
    requires data[c.head..c.head + |DecimalString(n)|] == DecimalString(n)
    ensures Next(data, c).tok == TokIdentifier
  {
    var h := c.head;
    assert data[h] == DecimalString(n)[0] == '-';
    assert !OpensComment(data, h, '*') && !OpensComment(data, h, '/');
    assert AfterComments(data, h) == h;
    assert !IsPunct(data[h]);
    assert TokenAt(data, h, h, c.value) == Some(IdentifierAt(data, h, h));
  }

  // ---------------------------------------------------------------------
  // mstream_fmt

  /** The bytes of a C string before its terminator: none of them is NUL. */
  predicate CString(s: seq<byte>) {
    forall i | 0 <= i < |s| :: s[i] != '\0'
  }

  /** An argument passed through the `...` of `mstream_fmt`. A double is
      given by the text `sprintf("%.9g")` makes of it. */
  datatype Arg =
    | ArgChar(c: byte)
    | ArgCstr(s: seq<byte>)
    | ArgInt(i: int)
    | ArgFloat(printed: seq<byte>)
    | ArgView(sv: StrView)

  /** The directives that take an argument: `%c`, `%s`, `%i`, `%d`, `%f`
      and `%S`. Any other byte after `%` is written as it stands. */
  predicate TakesArg(d: byte) {
    d == 'c' || d == 's' || d == 'i' || d == 'd' || d == 'f' || d == 'S'
  }

  /** The argument `va_arg` reads for directive `d` has the type `d` asks
      for: a byte, a C string, a C `int`, a double whose printed text fits
      the 32 bytes reserved for it, or a string view. */
  predicate ArgFits(d: byte, a: Arg) {
    if d == 'c' then a.ArgChar?
    else if d == 's' then a.ArgCstr? && CString(a.s)
    else if d == 'i' || d == 'd' then a.ArgInt? && Schema.Int32Min <= a.i <= Schema.Int32Max
    else if d == 'f' then a.ArgFloat? && |a.printed| < 32
    else d == 'S' && a.ArgView? && a.sv.Valid()
  }

  /** What `mstream_fmt` demands of its caller: no `%` as the last byte of
      the format (the source would read past the terminator), and an
      argument of the right type for each directive, in order. Unused
      arguments at the end are harmless. */
  predicate Matches(fmt: seq<byte>, args: seq<Arg>)
    decreases |fmt|
  {
    if fmt == [] then true
    else if fmt[0] != '%' then Matches(fmt[1..], args)
    else if |fmt| < 2 then false
    else if TakesArg(fmt[1]) then 0 < |args| && ArgFits(fmt[1], args[0]) && Matches(fmt[2..], args[1..])
    else Matches(fmt[2..], args)
  }

  /** How many arguments a format consumes. */
  function ArgCount(fmt: seq<byte>): nat
    decreases |fmt|
  {
    if fmt == [] then 0
    else if fmt[0] != '%' || |fmt| < 2 then ArgCount(fmt[1..])
    else if TakesArg(fmt[1]) then 1 + ArgCount(fmt[2..])
    else ArgCount(fmt[2..])
  }

  /** The bytes one directive writes for its argument. */
  function Rendered(d: byte, a: Arg): seq<byte>
    requires ArgFits(d, a)
  {
    match a
    case ArgChar(c) => [c]
    case ArgCstr(s) => s
    case ArgInt(i) => DecimalString(i)
    case ArgFloat(printed) => printed
    case ArgView(sv) => sv.Text()
  }

  /** What `mstream_fmt` writes: the format with each directive replaced by
      its argument. */
  function Format(fmt: seq<byte>, args: seq<Arg>): seq<byte>
    requires Matches(fmt, args)
    decreases |fmt|
  {
    if fmt == [] then []
    else if fmt[0] != '%' then [fmt[0]] + Format(fmt[1..], args)
    else if TakesArg(fmt[1]) then Rendered(fmt[1], args[0]) + Format(fmt[2..], args[1..])
    else [fmt[1]] + Format(fmt[2..], args)
  }

  /** The first piece of a format: the bytes it writes, how many format
      bytes it spans and how many arguments it uses. */
  datatype Piece = Piece(out: seq<byte>, width: nat, used: nat)

  function FirstPiece(fmt: seq<byte>, args: seq<Arg>): (p: Piece)
    requires fmt != [] && Matches(fmt, args)
    ensures p.width == (if fmt[0] == '%' then 2 else 1)
    ensures p.used == (if fmt[0] == '%' && TakesArg(fmt[1]) then 1 else 0)
    ensures p.width <= |fmt| && p.used <= |args| && Matches(fmt[p.width..], args[p.used..])
  {
    if fmt[0] != '%' then Piece([fmt[0]], 1, 0)
    else if TakesArg(fmt[1]) then Piece(Rendered(fmt[1], args[0]), 2, 1)
    else Piece([fmt[1]], 2, 0)
  }

  /** A format without `%` is copied as it stands. */
  lemma {:induction false} PlainFormatIsCopied(fmt: seq<byte>, args: seq<Arg>)
    requires forall i | 0 <= i < |fmt| :: fmt[i] != '%'
    ensures Matches(fmt, args) && Format(fmt, args) == fmt
    decreases |fmt|
  {
    if fmt != [] {
      PlainFormatIsCopied(fmt[1..], args);
      assert [fmt[0]] + fmt[1..] == fmt;
    }
  }

  /** A format whose arguments are all used can be followed by any other
      format and its arguments. */
  lemma {:induction false} MatchesConcat(a: seq<byte>, b: seq<byte>, argsA: seq<Arg>, argsB: seq<Arg>)
    requires Matches(a, argsA) && |argsA| == ArgCount(a) && Matches(b, argsB)
    ensures Matches(a + b, argsA + argsB)
    decreases |a|
  {
    if a == [] {
      assert a + b == b && argsA + argsB == argsB;
    } else if a[0] != '%' {
      assert (a + b)[0] == a[0];
      assert (a + b)[1..] == a[1..] + b;
      MatchesConcat(a[1..], b, argsA, argsB);
    } else if TakesArg(a[1]) {
      assert (a + b)[0] == a[0] && (a + b)[1] == a[1];
      assert (a + b)[2..] == a[2..] + b;
      assert (argsA + argsB)[0] == argsA[0];
      assert (argsA + argsB)[1..] == argsA[1..] + argsB;
      MatchesConcat(a[2..], b, argsA[1..], argsB);
    } else {
      assert (a + b)[0] == a[0] && (a + b)[1] == a[1];
      assert (a + b)[2..] == a[2..] + b;
      MatchesConcat(a[2..], b, argsA, argsB);
    }
  }

  /** Formatting distributes over concatenation: writing `a` with its own
      arguments and then `b` with the rest writes the same bytes as writing
      `a + b` with all of them. */
  lemma {:induction false} FormatConcat(a: seq<byte>, b: seq<byte>, argsA: seq<Arg>, argsB: seq<Arg>)
    requires Matches(a, argsA) && |argsA| == ArgCount(a) && Matches(b, argsB)
    ensures Matches(a + b, argsA + argsB)
    ensures FormatSpec(a + b, argsA + argsB) == FormatSpec(a, argsA) + FormatSpec(b, argsB)
    decreases |a|
  {
    MatchesConcat(a, b, argsA, argsB);
    if a == [] {
      assert a + b == b && argsA + argsB == argsB;
    } else {
      var p := FirstPiece(a, argsA);
      FormatUnfold(a, argsA);
      FormatUnfold(a + b, argsA + argsB);
      assert (a + b)[0] == a[0] && (a[0] == '%' ==> (a + b)[1] == a[1]);
      assert p.used == 1 ==> (argsA + argsB)[0] == argsA[0];
      assert FirstPiece(a + b, argsA + argsB) == p;
      assert (a + b)[p.width..] == a[p.width..] + b;
      assert (argsA + argsB)[p.used..] == argsA[p.used..] + argsB;
      FormatConcat(a[p.width..], b, argsA[p.used..], argsB);
    }
  }

  /** A non-empty format is its first piece followed by the rest, which
      uses the remaining arguments. */
  lemma FormatUnfold(fmt: seq<byte>, args: seq<Arg>)
    requires fmt != [] && Matches(fmt, args)
    ensures var p := FirstPiece(fmt, args);
            && p.width == (if fmt[0] == '%' then 2 else 1)
            && p.used == (if fmt[0] == '%' && TakesArg(fmt[1]) then 1 else 0)
            && Matches(fmt[p.width..], args[p.used..])
            && ArgCount(fmt) == p.used + ArgCount(fmt[p.width..])
            && FormatSpec(fmt, args) == p.out + FormatSpec(fmt[p.width..], args[p.used..])
  {
  }

  /** `Format` as `Stream.Fmt` states its loop invariant, so that the
      loop sees one directive of the format at a time. */
  function FormatSpec(fmt: seq<byte>, args: seq<Arg>): seq<byte>
    requires Matches(fmt, args)
  {
    Format(fmt, args)
  }

  /** Formatting from byte `i` and argument `k` is the first piece there
      followed by formatting the rest. */
  lemma FormatStep(fmt: seq<byte>, args: seq<Arg>, i: nat, k: nat)
    requires i < |fmt| && k <= |args| && Matches(fmt[i..], args[k..])
    ensures var p := FirstPiece(fmt[i..], args[k..]);
            && p.out == (if fmt[i] != '%' then [fmt[i]]
                         else if TakesArg(fmt[i + 1]) then Rendered(fmt[i + 1], args[k])
                         else [fmt[i + 1]])
            && p.width == (if fmt[i] == '%' then 2 else 1)
            && p.used == (if fmt[i] == '%' && TakesArg(fmt[i + 1]) then 1 else 0)
            && Matches(fmt[i + p.width..], args[k + p.used..])
            && FormatSpec(fmt[i..], args[k..]) == p.out + FormatSpec(fmt[i + p.width..], args[k + p.used..])
  {
    var f := fmt[i..];
    var p := FirstPiece(f, args[k..]);
    assert f[p.width..] == fmt[i + p.width..];
    assert args[k..][p.used..] == args[k + p.used..];
  }

  // ---------------------------------------------------------------------
  // The stream

  class Stream {
    var address: array<byte>
    var capacity: int
    var writePtr: int

    ghost predicate Valid()
      reads this
    {
      address.Length == capacity && 0 <= writePtr <= capacity
    }

    /** The bytes written so far. */
    ghost function Contents(): seq<byte>
      reads this, address
      requires Valid()
    {
      address[..writePtr]
    }

    /** `mstream_init_writeable`: no buffer and nothing written. */
    constructor ()
      ensures Valid() && capacity == 0 && Contents() == []
    {
      address := new byte[0];
      capacity := 0;
      writePtr := 0;
    }

    /** `mstream_grow`: the capacity doubles (from 32) until `additional`
        more bytes fit; `realloc` keeps what is written. */
    method Grow(additional: int)
      requires Valid()
      modifies this
      ensures Valid() && writePtr == old(writePtr) && Contents() == old(Contents())
      ensures capacity == GrownCapacity(old(capacity), writePtr + additional)
      ensures address == old(address) || fresh(address)
    {
      while capacity < writePtr + additional
        invariant Valid() && writePtr == old(writePtr) && Contents() == old(Contents())
        invariant GrownCapacity(capacity, writePtr + additional) == GrownCapacity(old(capacity), writePtr + additional)
        invariant address == old(address) || fresh(address)
        decreases writePtr + additional - capacity
      {
        capacity := if capacity == 0 then 32 else capacity * 2;
        var previous := address;
        address := new byte[capacity](i reads previous => if 0 <= i < previous.Length then previous[i] else '\0');
        assert address[..writePtr] == previous[..writePtr];
      }
    }

    /** The `memcpy` at the end of `mstream_cstr` and `mstream_str`: `bytes`
        after what is written, in room already made. */
    method Put(bytes: seq<byte>)
      requires Valid() && writePtr + |bytes| <= capacity
      modifies this, address
      ensures Valid() && Contents() == old(Contents()) + bytes
      ensures address == old(address) && capacity == old(capacity)
    {
      forall i | 0 <= i < |bytes| {
        address[writePtr + i] := bytes[i];
      }
      writePtr := writePtr + |bytes|;
      assert Contents() == old(Contents()) + bytes by {
        assert forall i | 0 <= i < |bytes| :: Contents()[old(writePtr) + i] == bytes[i];
      }
    }

    /** `mstream_putc`. */
    method Putc(c: byte)
      requires Valid()
      modifies this, address
      ensures Valid() && Contents() == old(Contents()) + [c]
      ensures address == old(address) || fresh(address)
    {
      Grow(1);
      GrowthIsBounded(old(capacity), writePtr + 1);
      address[writePtr] := c;
      writePtr := writePtr + 1;
    }

    /** `mstream_cstr`: the bytes of a C string before its terminator. */
    method Cstr(s: seq<byte>)
      requires Valid() && CString(s)
      modifies this, address
      ensures Valid() && Contents() == old(Contents()) + s
      ensures address == old(address) || fresh(address)
    {
      Grow(|s|);
      GrowthIsBounded(old(capacity), writePtr + |s|);
      Put(s);
    }

    /** `mstream_str`: the text of a string view. */
    method Str(v: StrView)
      requires Valid() && v.Valid()
      modifies this, address
      ensures Valid() && Contents() == old(Contents()) + v.Text()
      ensures address == old(address) || fresh(address)
    {
      Grow(v.len);
      GrowthIsBounded(old(capacity), writePtr + v.len);
      Put(v.Text());
    }

    /** `mstream_write_float`, with the text `sprintf("%.9g")` makes of the
        double given; 32 bytes are reserved for it. */
    method WriteFloat(printed: seq<byte>)
      requires Valid() && |printed| < 32
      modifies this, address
      ensures Valid() && Contents() == old(Contents()) + printed
      ensures address == old(address) || fresh(address)
    {
      Grow(32);
      GrowthIsBounded(old(capacity), writePtr + 32);
      Put(printed);
    }

    /** `mstream_write_int`: room for 11 bytes, a `-` for a negative
        number, `0` for zero; otherwise `digit` falls from `10^9` to the
        leading power of ten, and each digit is counted up from `0` while
        `digit` can still be taken off the magnitude. */
    method WriteInt(n: int)
      requires Valid() && Schema.Int32Min <= n <= Schema.Int32Max
      modifies this, address
      ensures Valid() && Contents() == old(Contents()) + DecimalString(n)
      ensures address == old(address) || fresh(address)
    {
      var value := n;
      Grow(11);
      GrowthIsBounded(old(capacity), writePtr + 11);
      ghost var sign: seq<byte> := [];
      if value < 0 {
        Put(['-']);
        value := -value;
        sign := ['-'];
      } else if value == 0 {
        Put(['0']);
        assert DecimalString(0) == ['0'];
        return;
      }
      ghost var written := Contents();
      assert DecimalString(n) == sign + Digits(value);
      WriteDigits(value);
      assert Contents() == written + Digits(value);
    }

    /** The digit loops of `mstream_write_int`, for a positive magnitude
        below `10^10` with room for ten bytes: `digit` falls from `10^9`
        to the leading power of ten, then each digit is written. */
    method WriteDigits(m: int)
      requires Valid() && 0 < m < 10000000000 && writePtr + 10 <= capacity
      modifies this, address
      ensures Valid() && Contents() == old(Contents()) + Digits(m)
      ensures address == old(address) && capacity == old(capacity)
    {
      var digit := 1000000000;
      var value := m;
      ghost var start := writePtr;
      // The leading power of ten.
      ghost var k: int := 9;
      PowersOfTen();
      while value < digit
        invariant 0 <= k <= 9 && digit == Pow10(k) && 0 < value == m && value < 10 * digit
        decreases k
      {
        digit := digit / 10;
        k := k - 1;
      }
      // The digits, from the leading one down.
      ghost var place: nat := 10 * digit;
      ghost var high: nat := 0;
      while digit != 0
        invariant -1 <= k <= 9
        invariant 0 <= k ==> digit == Pow10(k) && place == 10 * digit
        invariant k == -1 ==> digit == 0 && place == 1
        invariant m == high * place + value && 0 <= value < place
        invariant 0 < digit ==> 0 < high || digit <= value
        invariant Valid() && address == old(address) && capacity == old(capacity)
        invariant writePtr == start + |Leading(high)| && |Leading(high)| + k + 1 <= 10
        invariant Contents() == old(Contents()) + Leading(high)
        decreases k
      {
        var before := value;
        ghost var count;
        value, count := CountDigit(digit, value);
        NextDigit(m, high, place, digit, before, count, value);
        DigitsGrow(high, count);
        high := high * 10 + count;
        writePtr := writePtr + 1;
        place := digit;
        digit := digit / 10;
        k := k - 1;
      }
      LastDigit(m, high, place, value);
    }

    /** The inner loop of `mstream_write_int`: the byte at `writePtr` counts
        up from `0` as long as `digit` can be taken off `value`, which
        leaves the digit of `value` at `digit`. */
    method CountDigit(digit: int, value: int) returns (rest: int, ghost count: nat)
      requires Valid() && writePtr < capacity && 0 < digit && 0 <= value < 10 * digit
      modifies address
      ensures value == count * digit + rest && 0 <= rest < digit && count < 10
      ensures address[..writePtr + 1] == old(address[..writePtr]) + [DigitChar(count)]
    {
      rest := value;
      count := 0;
      address[writePtr] := '0';
      while rest >= digit
        invariant 0 <= count <= 9 && 0 <= rest && value == count * digit + rest
        invariant address[writePtr] as int == '0' as int + count
        invariant address[..writePtr] == old(address[..writePtr])
        decreases rest
      {
        rest := rest - digit;
        CountBelowTen(value, digit, count + 1, rest);
        address[writePtr] := (address[writePtr] as int + 1) as char;
        count := count + 1;
      }
      assert address[writePtr] == DigitChar(count);
    }

    /** One directive of `mstream_fmt` that takes an argument. */
    method WriteDirective(d: byte, a: Arg)
      requires Valid() && TakesArg(d) && ArgFits(d, a)
      modifies this, address
      ensures Valid() && Contents() == old(Contents()) + Rendered(d, a)
      ensures address == old(address) || fresh(address)
    {
      if d == 'c' {
        Putc(a.c);
      } else if d == 's' {
        Cstr(a.s);
      } else if d == 'i' || d == 'd' {
        WriteInt(a.i);
      } else if d == 'f' {
        WriteFloat(a.printed);
      } else {
        Str(a.sv);
      }
    }

    /** One pass of the loop of `mstream_fmt`, at format byte `i` with `k`
        arguments used: a plain byte is copied; `%` and the byte after it
        write the next argument when that byte is a directive that takes
        one, and the byte itself otherwise. */
    method FmtPass(fmt: seq<byte>, args: seq<Arg>, i: nat, k: nat) returns (next: nat, used: nat)
      requires Valid() && i < |fmt| && k <= |args| && Matches(fmt[i..], args[k..])
      modifies this, address
      ensures var p := FirstPiece(fmt[i..], args[k..]);
              && Valid() && Contents() == old(Contents()) + p.out
              && next == i + p.width && used == k + p.used
      ensures address == old(address) || fresh(address)
    {
      FormatStep(fmt, args, i, k);
      if fmt[i] == '%' {
        var d := fmt[i + 1];
        if TakesArg(d) {
          WriteDirective(d, args[k]);
          return i + 2, k + 1;
        }
        Putc(d);
        return i + 2, k;
      }
      Putc(fmt[i]);
      return i + 1, k;
    }

    /** `mstream_fmt`: the format, directive by directive. */
    method Fmt(fmt: seq<byte>, args: seq<Arg>)
      requires Valid() && CString(fmt) && Matches(fmt, args)
      modifies this, address
      ensures Valid() && Contents() == old(Contents()) + Format(fmt, args)
      ensures address == old(address) || fresh(address)
    {
      var i := 0;
      var k := 0;
      assert fmt[0..] == fmt && args[0..] == args;
      while i < |fmt|
        invariant 0 <= i <= |fmt| && 0 <= k <= |args|
        invariant Valid() && (address == old(address) || fresh(address))
        invariant Matches(fmt[i..], args[k..])
        invariant old(Contents()) + FormatSpec(fmt, args) == Contents() + FormatSpec(fmt[i..], args[k..])
        decreases |fmt| - i
      {
        FormatStep(fmt, args, i, k);
        i, k := FmtPass(fmt, args, i, k);
      }
    }
  }

  /** The count of the inner loop of `mstream_write_int` stays a digit:
      the magnitude left is below ten times `digit`. */
  lemma CountBelowTen(before: int, digit: int, count: int, value: int)
    requires 0 < digit && 0 <= value && before == count * digit + value && before < 10 * digit
    ensures count <= 9
  {
  }

  /** The digits `mstream_write_int` has written once the digits above
      `place` are `high`: none while `high` is zero. */
  function Leading(high: nat): seq<byte>
  {
    if high == 0 then [] else Digits(high)
  }

  /** Writing one more digit extends the leading digits; only the first
      digit may not be `0`. */
  lemma DigitsGrow(high: nat, count: nat)
    requires count < 10 && (0 < high || 0 < count)
    ensures Leading(high * 10 + count) == Leading(high) + [DigitChar(count)]
  {
    var next := high * 10 + count;
    if high > 0 {
      assert next / 10 == high && next % 10 == count;
    }
  }

  /** Once `digit` reaches zero the digits written spell the magnitude. */
  lemma LastDigit(m: int, high: int, place: int, value: int)
    requires place == 1 && m == high * place + value && 0 <= value < place
    ensures high == m
  {
  }

  /** One digit of `mstream_write_int`: taking `digit` off `before` (what
      is left below `place`) `count` times leaves less than `digit`, so the
      digits above `digit` spell `high * 10 + count`. */
  lemma NextDigit(m: int, high: int, place: int, digit: int, before: int, count: int, value: int)
    requires 0 < digit && place == 10 * digit
    requires m == high * place + before && before == count * digit + value
    ensures m == (high * 10 + count) * digit + value
  {
    calc {
      m;
      high * (10 * digit) + count * digit + value;
      { assert high * (10 * digit) == (high * 10) * digit; }
      (high * 10) * digit + count * digit + value;
      (high * 10 + count) * digit + value;
    }
  }
}
