/** The pure decisions inside the schema parser of c-ini/c-ini.c: which type
    a spelling names (`parse_basic_data_type`), what `unsigned` does to it,
    what a `DEFAULT(...)` value does to a key's attributes
    (`parse_attribute_default`) and which `CONSTRAIN(...)` bounds are
    admitted (`enforce_constrain_type`, `enforce_constrain_range`). */
module TypeRules {
  import opened Support
  import opened Lexer
  import opened Schema

  /** The spellings `parse_basic_data_type` recognises, with their types. */
  const BasicTypeNames: map<seq<byte>, DataType> := map[
    "bool" := Bool, "char" := I8,
    "u8" := U8, "uint8_t" := U8, "i8" := I8, "int8_t" := I8,
    "u16" := U16, "uint16_t" := U16, "i16" := I16, "int16_t" := I16,
    "u32" := U32, "uint32_t" := U32, "i32" := I32, "int32_t" := I32,
    "int" := I32, "float" := Float, "double" := Float]

  /** The chain of `cstr_equal` tests of `parse_basic_data_type`: the type a
      single word names, or `Unknown` when it names none. */
  function KeywordType(name: seq<byte>): (t: DataType)
    ensures t != Unknown ==> t.Bool? || t.Float? || IsFixedWidth(t)
  {
    if name == "bool" then Bool
    else if name == "char" then I8
    else if name == "u8" || name == "uint8_t" then U8
    else if name == "i8" || name == "int8_t" then I8
    else if name == "u16" || name == "uint16_t" then U16
    else if name == "i16" || name == "int16_t" then I16
    else if name == "u32" || name == "uint32_t" then U32
    else if name == "i32" || name == "int32_t" then I32
    else if name == "int" then I32
    else if name == "float" || name == "double" then Float
    else Unknown
  }

  /** The chain and the table agree on every word. */
  lemma KeywordTypeIsTableLookup(name: seq<byte>)
    ensures KeywordType(name) == if name in BasicTypeNames then BasicTypeNames[name] else Unknown
  {
    if name !in BasicTypeNames {
      assert name != "bool" && name != "char" && name != "int" && name != "float" && name != "double";
    }
  }

  /** The `unsigned` modifier: allowed only on the signed fixed-width types,
      where it gives the unsigned type of the same width. */
  function MakeUnsigned(t: DataType): (r: Option<DataType>) {
    match t
    case I8 => Some(U8)
    case I16 => Some(U16)
    case I32 => Some(U32)
    case _ => None
  }

  lemma MakeUnsignedKeepsWidth(t: DataType)
    ensures var r := MakeUnsigned(t);
            && (r.Some? <==> IsFixedWidth(t) && IsSigned(t))
            && (r.Some? ==> IsFixedWidth(r.value) && !IsSigned(r.value) && BitWidth(r.value) == BitWidth(t))
  {
  }

  /** What `parse_attribute_default` leaves behind: whether it went on, and
      the attributes as it left them. */
  datatype Outcome = Outcome(ok: bool, attr: Attributes)

  /** The two switches of `parse_attribute_default` applied to the token
      between the parentheses and its value. An integer for a fixed-width
      type is stored before its range is checked, so a rejected value is
      left in the attributes. */
  function ApplyDefault(t: DataType, tok: Token, v: Lexeme, attr: Attributes): (o: Outcome)
    requires Carries(tok, v)
  {
    match t
    case Unknown => Outcome(false, attr)
    case StrFixed => if tok != TokString then Outcome(false, attr) else Outcome(true, attr.(defaultValue := VString(v.sv)))
    case StrDynamic => if tok != TokString then Outcome(false, attr) else Outcome(true, attr.(defaultValue := VString(v.sv)))
    case StrCustom => if tok != TokString then Outcome(false, attr) else Outcome(true, attr.(defaultValue := VString(v.sv)))
    case Bool =>
      if tok == TokInteger then
        if v.i != 0 && v.i != 1 then Outcome(false, attr) else Outcome(true, attr.(defaultValue := VInteger(v.i)))
      else if tok == TokIdentifier then
        if IsWord(v, "true") then Outcome(true, attr.(defaultValue := VInteger(1)))
        else if IsWord(v, "false") then Outcome(true, attr.(defaultValue := VInteger(0)))
        else Outcome(false, attr)
      else Outcome(false, attr)
    case IBitfield => Outcome(false, attr)
    case UBitfield => Outcome(false, attr)
    case Float =>
      if tok != TokFloat && tok != TokInteger then Outcome(false, attr)
      else Outcome(true, attr.(defaultValue := VFloat))
    case _ =>
      if tok != TokInteger then Outcome(false, attr)
      else
        var a := attr.(defaultValue := VInteger(v.i));
        Outcome(InLimits(t, v.i), a)
  }

  /** What `DEFAULT` accepts for each type and what it stores: a string
      for string types; `0`, `1`, `true` or `false` for `bool`; an integer
      within the type's limits for fixed-width types; a float or an integer
      for floats; nothing for unknown types and bitfields. Only the default
      changes, and well-formed attributes stay well formed. */
  lemma DefaultRules(t: DataType, tok: Token, v: Lexeme, attr: Attributes)
    requires Carries(tok, v)
    ensures var o := ApplyDefault(t, tok, v, attr);
            && o.attr.min == attr.min && o.attr.max == attr.max
            && (o.ok ==> t != Unknown && !t.IBitfield? && !t.UBitfield?)
            && (IsStringType(t) ==> (o.ok <==> tok == TokString))
            && (IsStringType(t) && o.ok ==> o.attr.defaultValue == VString(v.sv))
            && (t.Bool? ==> (o.ok <==> (tok == TokInteger && (v.i == 0 || v.i == 1)) ||
                                       (tok == TokIdentifier && (IsWord(v, "true") || IsWord(v, "false")))))
            && (t.Bool? && o.ok ==> o.attr.defaultValue == VInteger(if tok == TokInteger then v.i
                                                                   else if IsWord(v, "true") then 1 else 0))
            && (IsFixedWidth(t) ==> (o.ok <==> tok == TokInteger && InLimits(t, v.i)))
            && (IsFixedWidth(t) && o.ok ==> o.attr.defaultValue == VInteger(v.i))
            && (t.Float? ==> (o.ok <==> tok == TokFloat || tok == TokInteger))
            && (t.Float? && o.ok ==> o.attr.defaultValue == VFloat)
            && (o.ok && AttrsWellFormed(t, attr) ==> AttrsWellFormed(t, o.attr))
  {
  }

  /** A later `DEFAULT` replaces an earlier one: after two in a row the
      second succeeds exactly when it would alone, leaving the same
      attributes. */
  lemma LaterDefaultOverwrites(t: DataType, tok1: Token, v1: Lexeme, tok2: Token, v2: Lexeme, attr: Attributes)
    requires Carries(tok1, v1) && Carries(tok2, v2)
    requires ApplyDefault(t, tok1, v1, attr).ok
    ensures var second := ApplyDefault(t, tok2, v2, ApplyDefault(t, tok1, v1, attr).attr);
            var alone := ApplyDefault(t, tok2, v2, attr);
            second.ok == alone.ok && (alone.ok ==> second.attr == alone.attr)
  {
  }

  /** `enforce_constrain_type`: whether a token may stand as a bound of a
      `CONSTRAIN` on a field of type `t`. */
  function ConstrainTypeOk(t: DataType, tok: Token): (ok: bool) {
    match t
    case I8 => tok == TokInteger
    case U8 => tok == TokInteger
    case I16 => tok == TokInteger
    case U16 => tok == TokInteger
    case I32 => tok == TokInteger
    case U32 => tok == TokInteger
    case Float => tok == TokFloat || tok == TokInteger
    case _ => false
  }

  /** `enforce_constrain_range`: whether an integer bound lies within the
      limits of an integer-valued type. Types without integer limits pass
      (strings, floats) or fail (unknown, bitfields) unconditionally. */
  function ConstrainRangeOk(t: DataType, i: int): (ok: bool) {
    match t
    case Unknown => false
    case StrFixed => true
    case StrDynamic => true
    case StrCustom => true
    case IBitfield => false
    case UBitfield => false
    case Float => true
    case _ => InLimits(t, i)
  }

  /** One bound of `CONSTRAIN`: the integer it sets, when both checks pass.
      A float literal bounding a float field is refused here (the source
      would store its bits reinterpreted as an integer). */
  function ConstrainBound(t: DataType, tok: Token, v: Lexeme): (b: Option<int>)
    requires Carries(tok, v)
  {
    if !ConstrainTypeOk(t, tok) then None
    else if !v.LexInt? then None
    else if !ConstrainRangeOk(t, v.i) then None
    else Some(v.i)
  }

  /** The two checks together: only fixed-width and float fields take
      bounds, only integer literals are kept, and a fixed-width bound lies
      within the type's limits. */
  lemma ConstrainRules(t: DataType, tok: Token, v: Lexeme)
    requires Carries(tok, v)
    ensures var b := ConstrainBound(t, tok, v);
            && (IsStringType(t) || t.Bool? || t.Unknown? || t.IBitfield? || t.UBitfield? ==> !ConstrainTypeOk(t, tok))
            && (IsFixedWidth(t) ==> (ConstrainTypeOk(t, tok) <==> tok == TokInteger))
            && (t.Float? ==> (ConstrainTypeOk(t, tok) <==> tok == TokInteger || tok == TokFloat))
            && (IsFixedWidth(t) && v.LexInt? ==> (ConstrainRangeOk(t, v.i) <==> InLimits(t, v.i)))
            && (t.Float? && v.LexInt? ==> ConstrainRangeOk(t, v.i))
            && (b.Some? ==> (IsFixedWidth(t) || t.Float?) && tok == TokInteger && b.value == v.i)
            && (b.Some? && IsFixedWidth(t) ==> InLimits(t, b.value))
            && (IsFixedWidth(t) || t.Float? ==> (b.Some? <==> tok == TokInteger && ConstrainRangeOk(t, v.i)))
  {
  }
}
