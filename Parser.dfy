/** The parser of c-ini/c-ini.c as the source runs it: `struct parser` is a
    class whose `tail`, `head` and `value` its routines advance in place,
    and the schema it builds is the `Root`, `Section` and `Key` objects of
    `Schema`. Every routine is proved to do exactly what the function of
    the same name in `Lexer` or `Grammar` says, so the properties proved
    there hold of the running parser. */
module Parser {
  import opened Support
  import opened Lexer
  import opened Schema
  import opened TypeRules
  import opened Grammar

  /** `struct parser`: the input buffer (`data` through `end`) and the
      cursor. The file name serves diagnostics only and is left out. */
  class Parser {
    const data: seq<byte>
    var tail: nat
    var head: nat
    var value: Lexeme

    /** `parser_init`: both cursors at the start. The source leaves `value`
        unset; nothing reads it before a token sets it. */
    constructor (data: seq<byte>)
      ensures this.data == data && tail == 0 && head == 0
    {
      this.data := data;
      tail := 0;
      head := 0;
      value := LexInt(0);
    }

    ghost function State(): Cursor
      reads this
    {
      Cursor(tail, head, value)
    }

    /** `scan_until_section`: the cursor moves to the first `SECTION` at or
        after `head`, which becomes an identifier token, or to the end of the
        buffer. */
    method ScanUntilSection() returns (tok: Token)
      requires head <= |data|
      modifies this
      ensures match FindSectionSpec(data, old(head))
              case None => tok == TokEnd && State() == Cursor(|data|, |data|, old(value))
              case Some(p) => tok == TokIdentifier && State() == AtSection(data, p)
    {
      tail := head;
      while head != |data|
        invariant old(head) <= head <= |data| && tail == head && value == old(value)
        invariant FindSection(data, old(head)) == FindSection(data, head)
        decreases |data| - head
      {
        if SectionAt(data, head) {
          value := LexStr(StrView(data, head, |SectionKeyword|));
          head := head + |SectionKeyword|;
          return TokIdentifier;
        }
        head := head + 1;
        tail := head;
      }
      return TokEnd;
    }

    /** `scan_next`: the next token, with the cursor and the value left as
        `Lexer.Next` says. */
    method ScanNext() returns (tok: Token)
      requires head <= |data|
      modifies this
      ensures Lexed(tok, State()) == Scan(data, old(State()))
    {
      tail := head;
      while head != |data|
        invariant tail == head <= |data| && value == old(value)
        invariant Next(data, old(State())) == Next(data, State())
        decreases |data| - head
      {
        assert Next(data, State()) == Pass(data, head, value);
        SkipComments();
        if head == |data| {
          return TokError;
        }
        var found: bool;
        found, tok := ScanToken();
        if found {
          return;
        }
        head := head + 1;
        tail := head;
      }
      return TokEnd;
    }

    /** The two comment checks at the top of the loop of `scan_next`. */
    method SkipComments()
      requires head < |data|
      modifies this
      ensures head == AfterComments(data, old(head))
      ensures tail == old(tail) && value == old(value)
    {
      if OpensComment(data, head, '*') {
        head := SkipBlockComment(head + 2);
        if head == |data| {
          return;
        }
      }
      if OpensComment(data, head, '/') {
        head := SkipLineComment(head + 2);
      }
    }

    /** The first comment loop of `scan_next`: from the byte after `/` `*`,
        to just past the first `*` `/`, or the end. */
    method SkipBlockComment(from: nat) returns (h: nat)
      requires from <= |data|
      ensures h == BlockCommentEnd(data, from)
    {
      h := from;
      while h != |data|
        invariant from <= h <= |data|
        invariant BlockCommentEnd(data, h) == BlockCommentEnd(data, from)
        decreases |data| - h
      {
        if ClosesBlockAt(data, h) {
          h := h + 2;
          break;
        }
        h := h + 1;
      }
    }

    /** The second comment loop of `scan_next`: from the byte after `/` `/`,
        to just past the first newline, or the end. */
    method SkipLineComment(from: nat) returns (h: nat)
      requires from <= |data|
      ensures h == LineCommentEnd(data, from)
    {
      h := from;
      while h != |data|
        invariant from <= h <= |data|
        invariant LineCommentEnd(data, h) == LineCommentEnd(data, from)
        decreases |data| - h
      {
        if data[h] == '\n' {
          h := h + 1;
          break;
        }
        h := h + 1;
      }
    }

    /** The token branches of `scan_next` at `head`; `found` is false when
        the byte starts none of them, and then nothing has changed. */
    method ScanToken() returns (found: bool, tok: Token)
      requires tail <= head < |data|
      modifies this
      ensures var r := TokenAt(data, old(tail), old(head), old(value));
              && found == r.Some?
              && (found ==> Lexed(tok, State()) == r.value)
              && (!found ==> State() == old(State()))
    {
      var c := data[head];
      if IsPunct(c) {
        head := head + 1;
        return true, TokPunct(c);
      } else if IsDigit(c) {
        tok := ScanNumber();
        return true, tok;
      } else if c == '"' {
        tok := ScanString();
        return true, tok;
      } else if IsIdentStart(c) {
        tok := ScanIdentifier();
        return true, tok;
      }
      return false, TokError;
    }

    /** The integer literal branch of `scan_next`, which turns into a float
        literal at a `.`. */
    method ScanNumber() returns (tok: Token)
      requires tail <= head < |data| && IsDigit(data[head])
      modifies this
      ensures Lexed(tok, State()) == NumberAt(data, old(tail), old(head))
    {
      ScanDigits();
      if head != |data| && data[head] == '.' {
        ScanFraction();
        return TokFloat;
      }
      return TokInteger;
    }

    /** The digit loop of the integer branch: `value` accumulates the
        decimal number the digits spell. */
    method ScanDigits()
      requires head <= |data|
      modifies this
      ensures head == DigitRunEnd(data, old(head)) && tail == old(tail)
      ensures forall k | old(head) <= k < head :: IsDigit(data[k])
      ensures value == LexInt(DecimalValue(data[old(head)..head]))
    {
      var start := head;
      value := LexInt(0);
      while head != |data| && IsDigit(data[head])
        invariant start <= head <= |data| && tail == old(tail)
        invariant forall k | start <= k < head :: IsDigit(data[k])
        invariant DigitRunEnd(data, head) == DigitRunEnd(data, start)
        invariant value == LexInt(DecimalValue(data[start..head]))
        decreases |data| - head
      {
        assert data[start..head + 1][..head - start] == data[start..head];
        value := LexInt(value.i * 10 + DigitValue(data[head]));
        head := head + 1;
      }
    }

    /** The fraction loop of a float literal, from its `.`, and the
        optional `f` after it. The float's value is not modelled. */
    method ScanFraction()
      requires head < |data|
      modifies this
      ensures head == FloatEnd(data, old(head)) && tail == old(tail) && value == LexFloat
    {
      var dot := head;
      value := LexFloat;
      head := head + 1;
      while head != |data| && IsDigit(data[head])
        invariant dot < head <= |data| && tail == old(tail) && value == LexFloat
        invariant DigitRunEnd(data, head) == DigitRunEnd(data, dot + 1)
        decreases |data| - head
      {
        head := head + 1;
      }
      if head != |data| && data[head] == 'f' {
        head := head + 1;
      }
    }

    /** The string literal branch of `scan_next`. */
    method ScanString() returns (tok: Token)
      requires tail <= head < |data| && data[head] == '"'
      modifies this
      ensures Lexed(tok, State()) == StringAt(data, old(tail), old(head), old(value))
    {
      head := head + 1;
      var off := head;
      while head != |data|
        invariant off <= head <= |data| && tail == old(tail) && value == old(value)
        invariant StringEnd(data, head) == StringEnd(data, off)
        decreases |data| - head
      {
        if data[head] == '"' && data[head - 1] != '\\' {
          break;
        }
        head := head + 1;
      }
      if head == |data| {
        return TokError;
      }
      assert head == StringEnd(data, off);
      value := LexStr(StrView(data, off, head - off));
      head := head + 1;
      return TokString;
    }

    /** The identifier branch of `scan_next`. */
    method ScanIdentifier() returns (tok: Token)
      requires tail <= head < |data| && IsIdentStart(data[head])
      modifies this
      ensures Lexed(tok, State()) == IdentifierAt(data, old(tail), old(head))
    {
      var off := head;
      head := head + 1;
      while head != |data| && IsIdentChar(data[head])
        invariant off < head <= |data| && tail == old(tail)
        invariant IdentRunEnd(data, head) == IdentRunEnd(data, off + 1)
        decreases |data| - head
      {
        head := head + 1;
      }
      assert head == IdentRunEnd(data, off + 1);
      value := LexStr(StrView(data, off, head - off));
      return TokIdentifier;
    }

    /** `parse_basic_data_type`, entered on an identifier. */
    method ParseBasicDataType(tok0: Token) returns (tok: Token, t: DataType)
      requires tok0 == TokIdentifier && Current(data, tok0, State())
      modifies this
      ensures Typed(tok, t, State()) == BasicDataType(data, old(State()), tok0)
    {
      tok := tok0;
      var isUnsigned := false;
      if IsWord(value, "unsigned") {
        isUnsigned := true;
        tok := ScanNext();
        if tok != TokIdentifier {
          return TokError, Unknown;
        }
      }
      t := KeywordType(value.sv.Text());
      if t != Unknown {
        tok, t := ParseNamedType(isUnsigned, t);
      } else if IsWord(value, "struct") {
        tok, t := ParseStructType();
      }
    }

    /** `parse_basic_data_type` after a recognised type name `kt`: the
        `unsigned` modifier, then `char *` as a dynamic string. */
    method ParseNamedType(isUnsigned: bool, kt: DataType) returns (tok: Token, t: DataType)
      requires head <= |data| && kt != Unknown
      modifies this
      ensures Typed(tok, t, State()) == NamedType(data, old(State()), isUnsigned, kt)
    {
      t := kt;
      tok := ScanNext();
      if isUnsigned {
        match t {
          case I8 => t := U8;
          case I16 => t := U16;
          case I32 => t := U32;
          case _ => return TokError, t;
        }
      }
      if t == I8 && tok == TokPunct('*') {
        t := StrDynamic;
        tok := ScanNext();
      }
    }

    /** `parse_basic_data_type` after the word `struct`: `struct str *` is
        the custom string type; any other name is an unknown type. */
    method ParseStructType() returns (tok: Token, t: DataType)
      requires Current(data, TokIdentifier, State())
      modifies this
      ensures Typed(tok, t, State()) == StructType(data, old(State()))
    {
      var next := ScanNext();
      if next != TokIdentifier {
        return TokError, Unknown;
      }
      if IsWord(value, "str") {
        next := ScanNext();
        if next != TokPunct('*') {
          return TokError, Unknown;
        }
        tok := ScanNext();
        return tok, StrCustom;
      }
      return TokIdentifier, Unknown;
    }

    /** `parse_attribute_default`, entered just after the word `DEFAULT`:
        the first switch stores the value its type admits, the second checks
        an integer against the limits of a fixed-width type. */
    method ParseAttributeDefault(t: DataType, key: Key) returns (tok: Token)
      requires head <= |data|
      modifies this, key
      ensures Attributed(tok, key.attr, State()) == AttributeDefault(data, old(State()), t, old(key.attr))
    {
      tok := ScanNext();
      if tok != TokPunct('(') {
        return TokError;
      }
      tok := ScanNext();
      var ok := StoreDefault(t, tok, key);
      if !ok {
        return TokError;
      }
      tok := ScanNext();
      if tok != TokPunct(')') {
        return TokError;
      }
      tok := ScanNext();
    }

    /** The two switches of `parse_attribute_default` on the token between
        the parentheses. */
    method StoreDefault(t: DataType, tok: Token, key: Key) returns (ok: bool)
      requires Carries(tok, value)
      modifies key
      ensures Outcome(ok, key.attr) == ApplyDefault(t, tok, value, old(key.attr))
    {
      match t {
        case Unknown =>
          return false;
        case StrFixed | StrDynamic | StrCustom =>
          if tok != TokString {
            return false;
          }
          key.attr := key.attr.(defaultValue := VString(value.sv));
        case Bool =>
          if tok == TokInteger {
            if value.i != 0 && value.i != 1 {
              return false;
            }
            key.attr := key.attr.(defaultValue := VInteger(value.i));
          } else if tok == TokIdentifier {
            if IsWord(value, "true") {
              key.attr := key.attr.(defaultValue := VInteger(1));
            } else if IsWord(value, "false") {
              key.attr := key.attr.(defaultValue := VInteger(0));
            } else {
              return false;
            }
          } else {
            return false;
          }
        case IBitfield | UBitfield =>
          return false;
        case Float =>
          if tok != TokFloat && tok != TokInteger {
            return false;
          }
          key.attr := key.attr.(defaultValue := VFloat);
        case I8 | U8 | I16 | U16 | I32 | U32 =>
          if tok != TokInteger {
            return false;
          }
          key.attr := key.attr.(defaultValue := VInteger(value.i));
      }
      if IsFixedWidth(t) && !InLimits(t, value.i) {
        return false;
      }
      ok := true;
    }

    /** `parse_attribute_constrain`, entered just after the word
        `CONSTRAIN`: each bound passes `enforce_constrain_type` and
        `enforce_constrain_range` and is stored at once; then the maximum
        must not be below the minimum. */
    method ParseAttributeConstrain(t: DataType, key: Key) returns (tok: Token)
      requires head <= |data|
      modifies this, key
      ensures Attributed(tok, key.attr, State()) == AttributeConstrain(data, old(State()), t, old(key.attr))
    {
      tok := ScanNext();
      if tok != TokPunct('(') {
        return TokError;
      }
      tok := ScanNext();
      var lo := ConstrainBound(t, tok, value);
      if lo.None? {
        return TokError;
      }
      key.attr := key.attr.(min := VInteger(lo.value));
      tok := ScanNext();
      if tok != TokPunct(',') {
        return TokError;
      }
      tok := ScanNext();
      var hi := ConstrainBound(t, tok, value);
      if hi.None? {
        return TokError;
      }
      key.attr := key.attr.(max := VInteger(hi.value));
      if key.attr.max.i < key.attr.min.i {
        return TokError;
      }
      tok := ScanNext();
      if tok != TokPunct(')') {
        return TokError;
      }
      tok := ScanNext();
    }

    /** `parse_attributes`: attributes while the token is an identifier. */
    method ParseAttributes(tok0: Token, t: DataType, key: Key) returns (tok: Token)
      requires Current(data, tok0, State())
      modifies this, key
      ensures Attributed(tok, key.attr, State()) == AttributeListSpec(data, old(State()), tok0, t, old(key.attr))
    {
      tok := tok0;
      while tok == TokIdentifier
        invariant Current(data, tok, State())
        invariant AttributeListSpec(data, State(), tok, t, key.attr) == AttributeListSpec(data, old(State()), tok0, t, old(key.attr))
        decreases |data| - head
      {
        AttributeListStep(data, State(), t, key.attr);
        tok := ParseAttribute(t, key);
        if tok == TokError {
          return;
        }
      }
    }

    /** One pass of the loop of `parse_attributes`, on an identifier:
        `DEFAULT` and `CONSTRAIN` are read by their routines, any other
        word is an error. */
    method ParseAttribute(t: DataType, key: Key) returns (tok: Token)
      requires Current(data, TokIdentifier, State())
      modifies this, key
      ensures Attributed(tok, key.attr, State()) == Attribute(data, old(State()), t, old(key.attr))
    {
      if IsWord(value, "DEFAULT") {
        tok := ParseAttributeDefault(t, key);
      } else if IsWord(value, "CONSTRAIN") {
        tok := ParseAttributeConstrain(t, key);
      } else {
        tok := TokError;
      }
    }

    /** `parse_struct_known_data_type`: the key is created, seeded with its
        type's defaults and given its attributes. */
    method ParseStructKnownDataType(section: Section, t: DataType, tok0: Token) returns (tok: Token)
      requires Current(data, tok0, State()) && t != Unknown
      modifies this, section
      ensures var r := KnownDataType(data, old(State()), t, tok0);
              && tok == r.tok && State() == r.c
              && Fields(section.keys) == old(Fields(section.keys)) + Listed(r.key)
      ensures section.structDef == old(section.structDef)
    {
      if tok0 != TokIdentifier {
        return TokError;
      }
      ghost var fields0 := Fields(section.keys);
      var keyName := value.sv;
      var ok, c;
      ok, c, tok := ParseArraySuffix(t);
      if !ok {
        return TokError;
      }
      assert Fields(section.keys) == fields0;
      tok := DeclareKeyHere(section, keyName, c, tok);
    }

    /** The optional `[n]` of `parse_struct_known_data_type`, entered on
        the key name. */
    method ParseArraySuffix(t: DataType) returns (ok: bool, c: DataType, tok: Token)
      requires head <= |data|
      modifies this
      ensures Suffixed(ok, c, Lexed(tok, State())) == ArraySuffix(data, old(State()), t)
    {
      c := t;
      tok := ScanNext();
      if tok == TokPunct('[') {
        tok := ScanNext();
        if tok != TokInteger {
          return false, c, TokError;
        }
        if c == I8 {
          c := StrFixed;
        } else {
          return false, c, TokError;
        }
        tok := ScanNext();
        if tok != TokPunct(']') {
          return false, t, TokError;
        }
        tok := ScanNext();
      }
      ok := true;
    }

    /** The tail of `parse_struct_known_data_type`: `key_create`,
        `attributes_set_default_for_type` and `parse_attributes`. */
    method DeclareKeyHere(section: Section, name: StrView, t: DataType, tok0: Token) returns (tok: Token)
      requires Current(data, tok0, State()) && t != Unknown
      modifies this, section
      ensures var r := DeclareKey(data, name, t, Lexed(tok0, old(State())));
              && tok == r.tok && State() == r.c
              && Fields(section.keys) == old(Fields(section.keys)) + [r.key.value]
      ensures section.structDef == old(section.structDef)
    {
      ghost var before := section.keys;
      ghost var fieldsBefore := Fields(before);
      var key := KeyCreate(section, name, t);
      key.attr := DefaultAttributes(t);
      tok := ParseAttributes(tok0, t, key);
      assert Fields(before) == fieldsBefore;
      FieldsSnoc(before, key);
    }

    /** `parse_struct_unknown_data_type`: a field of an unknown type is
        passed over up to `;` or `,`, which is accepted only after an
        `IGNORE()`. */
    method ParseStructUnknownDataType(tok0: Token) returns (tok: Token)
      requires Current(data, tok0, State())
      modifies this
      ensures var r := UnknownDataTypeSpec(data, old(State()), tok0, None);
              tok == r.tok && State() == r.c
    {
      tok := tok0;
      var ignoreAttrSet := false;
      ghost var ignore: Option<StrView> := None;
      while true
        invariant Current(data, tok, State()) && IgnoreSeen(data, ignore, head)
        invariant ignoreAttrSet == ignore.Some?
        invariant UnknownDataTypeSpec(data, State(), tok, ignore) == UnknownDataTypeSpec(data, old(State()), tok0, None)
        decreases |data| - head, if tok == TokError || tok == TokEnd then 0 else 1
      {
        UnknownDataTypeStep(data, State(), tok, ignore);
        if tok == TokError || tok == TokEnd {
          break;
        } else if tok == TokIdentifier && IsWord(value, "IGNORE") {
          ghost var word := value.sv;
          tok := ScanNext();
          if tok != TokPunct('(') {
            return TokError;
          }
          tok := ScanNext();
          if tok != TokPunct(')') {
            return TokError;
          }
          ignoreAttrSet := true;
          ignore := Some(word);
        } else if tok == TokPunct(';') || tok == TokPunct(',') {
          if ignoreAttrSet {
            return;
          }
          break;
        }
        tok := ScanNext();
      }
      return TokError;
    }

    /** One declarator of `parse_struct`: a key of known type `t`, or a
        field of unknown type passed over without a key. */
    method ParseDeclarator(section: Section, t: DataType, tok0: Token) returns (tok: Token)
      requires Current(data, tok0, State())
      modifies this, section
      ensures var d := Declarator(data, old(State()), tok0, t);
              && tok == d.tok && State() == d.c
              && Fields(section.keys) == old(Fields(section.keys)) + Listed(d.key)
      ensures section.structDef == old(section.structDef)
    {
      if t != Unknown {
        tok := ParseStructKnownDataType(section, t, tok0);
      } else {
        tok := ParseStructUnknownDataType(tok0);
      }
    }

    /** `parse_struct`: declarations until a token that does not start one.
        Every key is appended to `section`. */
    method ParseStruct(section: Section) returns (tok: Token)
      requires tail <= head <= |data|
      modifies this, section
      ensures var r := StructBodySpec(data, old(State()));
              && tok == r.tok && State() == r.c
              && Fields(section.keys) == old(Fields(section.keys)) + r.fields
      ensures section.structDef == old(section.structDef)
    {
      ghost var spec := StructBodySpec(data, State());
      ghost var got: seq<Field> := [];
      ghost var fields0 := Fields(section.keys);
      while true
        invariant tail <= head <= |data|
        invariant section.structDef == old(section.structDef)
        invariant Fields(section.keys) == fields0 + got
        invariant spec == Join(got, StructBodySpec(data, State()))
        decreases |data| - head
      {
        ghost var before := got;
        ghost var added;
        var more;
        more, tok, added := ParseDeclaration(section);
        got := got + added;
        Associative(fields0, before, added);
        if !more {
          JoinJoin(before, added, Body(tok, [], State()));
          return;
        }
        JoinJoin(before, added, StructBodySpec(data, State()));
      }
    }

    /** One pass through the loop of `parse_struct`: a type, then its
        declarators up to `;`; `more` is set when the loop goes on. */
    method ParseDeclaration(section: Section) returns (more: bool, tok: Token, ghost added: seq<Field>)
      requires tail <= head <= |data|
      modifies this, section
      ensures tail <= head <= |data|
      ensures more ==> old(head) < head && StructBodySpec(data, old(State())) == Join(added, StructBodySpec(data, State()))
      ensures !more ==> StructBodySpec(data, old(State())) == Body(tok, added, State())
      ensures Fields(section.keys) == old(Fields(section.keys)) + added
      ensures section.structDef == old(section.structDef)
    {
      tok := ScanNext();
      if tok != TokIdentifier {
        return false, tok, [];
      }
      tok, added := ParseTypedDeclaration(section);
      more := tok == TokPunct(';');
    }

    /** The declaration `parse_struct` reads once it has an identifier: the
        type, through `parse_basic_data_type`, then its declarators. */
    method ParseTypedDeclaration(section: Section) returns (tok: Token, ghost added: seq<Field>)
      requires Current(data, TokIdentifier, State())
      modifies this, section
      ensures tail <= head <= |data|
      ensures tok == TokPunct(';') ==> old(head) < head && DeclarationSpec(data, old(State())) == Join(added, StructBodySpec(data, State()))
      ensures tok != TokPunct(';') ==> DeclarationSpec(data, old(State())) == Body(tok, added, State())
      ensures Fields(section.keys) == old(Fields(section.keys)) + added
      ensures section.structDef == old(section.structDef)
    {
      DeclarationStep(data, State());
      var t;
      tok, t := ParseBasicDataType(TokIdentifier);
      if tok == TokError || tok == TokEnd {
        return tok, [];
      }
      tok, added := ParseFieldList(section, t, tok);
    }

    /** The `next_in_list` part of `parse_struct`: declarators of type `t`
        separated by `,`, up to the `;` that ends the declaration or the
        first error. */
    method ParseFieldList(section: Section, t: DataType, tok0: Token) returns (tok: Token, ghost added: seq<Field>)
      requires Current(data, tok0, State())
      modifies this, section
      ensures tail <= head <= |data| && (tok == TokPunct(';') ==> old(head) < head)
      ensures tok == TokPunct(';') || tok == TokError
      ensures tok == TokPunct(';') ==> FieldListSpec(data, old(State()), tok0, t) == Join(added, StructBodySpec(data, State()))
      ensures tok == TokError ==> FieldListSpec(data, old(State()), tok0, t) == Body(TokError, added, State())
      ensures Fields(section.keys) == old(Fields(section.keys)) + added
      ensures section.structDef == old(section.structDef)
    {
      ghost var spec := FieldListSpec(data, State(), tok0, t);
      ghost var fields0 := Fields(section.keys);
      ghost var h0 := head;
      added := [];
      tok := tok0;
      while true
        invariant Current(data, tok, State()) && h0 <= head
        invariant section.structDef == old(section.structDef)
        invariant Fields(section.keys) == fields0 + added
        invariant spec == Join(added, FieldListSpec(data, State(), tok, t))
        decreases |data| - head
      {
        ghost var here;
        var more;
        FieldListStep(data, State(), tok, t, added);
        Associative(fields0, added, ListItem(data, State(), tok, t).here);
        more, tok, here := ParseListItem(section, t, tok);
        added := added + here;
        if !more {
          return;
        }
      }
    }

    /** One pass through `next_in_list`: a declarator and the `,` or `;`
        after it; after `,` the token that starts the next declarator is
        read and `more` is set. */
    method ParseListItem(section: Section, t: DataType, tok0: Token) returns (more: bool, tok: Token, ghost here: seq<Field>)
      requires Current(data, tok0, State())
      modifies this, section
      ensures Item(more, tok, here, State()) == ListItem(data, old(State()), tok0, t)
      ensures Fields(section.keys) == old(Fields(section.keys)) + here
      ensures section.structDef == old(section.structDef)
    {
      here := Listed(Declarator(data, State(), tok0, t).key);
      tok := ParseDeclarator(section, t, tok0);
      if tok == TokPunct(',') {
        tok := ScanNext();
        more := true;
      } else if tok == TokPunct(';') {
        more := false;
      } else {
        return false, TokError, here;
      }
    }

    /** The top of the loop of `parse`: `scan_until_section`, then the
        header of the section it stopped on. `found` is cleared when no
        `SECTION` is left. */
    method FindSectionHeader() returns (found: bool, ok: bool, name: StrView, def: StrView, structName: StrView)
      requires head <= |data|
      modifies this
      ensures match FindSectionSpec(data, old(head))
              case None => !found && State() == Cursor(|data|, |data|, old(value))
              case Some(p) => found && Header(ok, name, def, structName, State()) == SectionHeader(data, p)
    {
      name, def, structName := EmptyStrView(), EmptyStrView(), EmptyStrView();
      ok := false;
      var tok := ScanUntilSection();
      if tok == TokEnd {
        return false, ok, name, def, structName;
      }
      found := true;
      ok, name, def, structName := ParseSectionHeader(FindSectionSpec(data, old(head)).value);
    }

    /** The header `parse` reads after `scan_until_section` stops on
        `SECTION`: `( "name" ) struct Name {`. */
    method ParseSectionHeader(ghost p: nat) returns (ok: bool, name: StrView, def: StrView, structName: StrView)
      requires SectionAt(data, p) && State() == AtSection(data, p)
      modifies this
      ensures Header(ok, name, def, structName, State()) == SectionHeader(data, p)
    {
      name, def, structName := EmptyStrView(), EmptyStrView(), EmptyStrView();
      ok := false;
      var tok := ScanNext();
      if tok != TokPunct('(') {
        return;
      }
      tok := ScanNext();
      if tok != TokString {
        return;
      }
      var sectionName := value.sv;
      tok := ScanNext();
      if tok != TokPunct(')') {
        return;
      }
      tok := ScanNext();
      if tok != TokIdentifier || !IsWord(value, "struct") {
        return;
      }
      var structDef := value.sv;
      tok := ScanNext();
      if tok != TokIdentifier {
        return;
      }
      var nameOfStruct := value.sv;
      tok := ScanNext();
      if tok != TokPunct('{') {
        return;
      }
      return true, sectionName, structDef, nameOfStruct;
    }

    /** `parse`: section after section until the input ends or an error
        stops it. */
    method Parse(root: Root, isSource: bool) returns (ok: bool)
      requires tail <= head <= |data|
      modifies this, root
      ensures var r := SectionsSpec(data, old(State()), isSource);
              && ok == r.ok && State() == r.c
              && Blocks(root.sections) == old(Blocks(root.sections)) + r.blocks
      ensures |old(root.sections)| <= |root.sections| && root.sections[..|old(root.sections)|] == old(root.sections)
    {
      ghost var spec := SectionsSpec(data, State(), isSource);
      ghost var got: seq<Block> := [];
      ghost var sections0 := root.sections;
      ghost var blocks0 := Blocks(root.sections);
      while true
        invariant tail <= head <= |data|
        invariant |sections0| <= |root.sections| && root.sections[..|sections0|] == sections0
        invariant Blocks(root.sections) == blocks0 + got
        invariant spec == JoinBlocks(got, SectionsSpec(data, State(), isSource))
        decreases |data| - head
      {
        ghost var before := got;
        ghost var added, created;
        ghost var sections1 := root.sections;
        var more;
        more, ok, added, created := ParseSection(root, isSource);
        assert root.sections[..|sections0|] == sections1[..|sections0|];
        got := got + added;
        Associative(blocks0, before, added);
        if !more {
          JoinJoinBlocks(before, added, Parsed(ok, [], State()));
          return;
        }
        JoinJoinBlocks(before, added, SectionsSpec(data, State(), isSource));
      }
    }

    /** One pass through the loop of `parse`: `scan_until_section` and the
        section header, then the section itself. `more` is set when the
        loop goes on. */
    method ParseSection(root: Root, isSource: bool)
      returns (more: bool, ok: bool, ghost added: seq<Block>, ghost created: seq<Section>)
      requires tail <= head <= |data|
      modifies this, root
      ensures tail <= head <= |data|
      ensures more ==> old(head) < head &&
                       SectionsSpec(data, old(State()), isSource) == JoinBlocks(added, SectionsSpec(data, State(), isSource))
      ensures !more ==> SectionsSpec(data, old(State()), isSource) == Parsed(ok, added, State())
      ensures Blocks(root.sections) == old(Blocks(root.sections)) + added
      ensures root.sections == old(root.sections) + created
    {
      ghost var c0 := State();
      SectionsStep(data, c0, isSource);
      var found, hok, name, def, structName := FindSectionHeader();
      if !found {
        return false, true, [], [];
      }
      if !hok {
        return false, false, [], [];
      }
      more, ok, added, created := ParseSectionBody(root, isSource, name, def, structName);
    }

    /** The section of `parse` after its header: `section_create`, then
        `parse_struct` up to the closing `}`; for a source file the struct
        text from `struct` through `}` is recorded. */
    method ParseSectionBody(root: Root, isSource: bool, name: StrView, def: StrView, structName: StrView)
      returns (more: bool, ok: bool, ghost added: seq<Block>, ghost created: seq<Section>)
      requires tail <= head <= |data|
      requires name.source == data && name.Valid()
      requires structName.source == data && structName.Valid() && 0 < structName.len
      requires def.source == data && def.Valid() && def.Text() == "struct" && def.off + def.len < head
      modifies this, root
      ensures tail <= head <= |data| && old(head) <= head
      ensures SectionBodySpec(data, Header(true, name, def, structName, old(State())), isSource) ==
              if more then JoinBlocks(added, SectionsSpec(data, State(), isSource)) else Parsed(ok, added, State())
      ensures Blocks(root.sections) == old(Blocks(root.sections)) + added
      ensures root.sections == old(root.sections) + created
    {
      BodyThenSections(data, Header(true, name, def, structName, State()), isSource);
      var tok, section := BuildSection(root, isSource, name, def, structName);
      more := tok == TokPunct('}');
      ok := more;
      added := [BlockOf(section)];
      created := [section];
    }

    /** `section_create`, then `parse_struct` into the new section; when the
        struct closes with `}` in a source file, the struct text from
        `struct` through `}` becomes the section's `struct_def`. */
    method BuildSection(root: Root, isSource: bool, name: StrView, def: StrView, structName: StrView)
      returns (tok: Token, section: Section)
      requires tail <= head <= |data|
      modifies this, root
      ensures var body := StructBodySpec(data, old(State()));
              && tok == body.tok && State() == body.c
              && BlockOf(section) ==
                 Block(name, structName,
                       if tok == TokPunct('}') && isSource then StrView(data, def.off, head - def.off) else EmptyStrView(),
                       body.fields)
      ensures fresh(section)
      ensures Blocks(root.sections) == old(Blocks(root.sections)) + [BlockOf(section)]
      ensures root.sections == old(root.sections) + [section]
    {
      ghost var sections0 := root.sections;
      label start:
      section := SectionCreate(root, name, structName);
      assert Fields(section.keys) == [];
      tok := ParseStruct(section);
      BlocksUnchanged@start(sections0);
      label parsed:
      if tok == TokPunct('}') && isSource {
        section.structDef := StrView(data, def.off, head - def.off);
      }
      BlocksUnchanged@parsed(sections0);
      assert root.sections[..|sections0|] == sections0;
    }
  }

  /** The key as the schema records it. */
  ghost function FieldOf(k: Key): Field
    reads k
  {
    Field(k.name, k.ctype, k.attr)
  }

  /** The keys of a section as the schema records them, in list order. */
  ghost function Fields(keys: seq<Key>): (fs: seq<Field>)
    reads keys
    ensures |fs| == |keys|
  {
    seq(|keys|, i requires 0 <= i < |keys| reads keys => FieldOf(keys[i]))
  }

  lemma FieldsSnoc(keys: seq<Key>, k: Key)
    ensures Fields(keys + [k]) == Fields(keys) + [FieldOf(k)]
  {
  }

  lemma Associative<T>(a: seq<T>, b: seq<T>, c: seq<T>)
    ensures (a + b) + c == a + (b + c)
  {
  }

  /** The section as the schema records it. */
  ghost function BlockOf(s: Section): Block
    reads s, s.keys
  {
    Block(s.name, s.structName, s.structDef, Fields(s.keys))
  }

  /** The sections of a root as the schema records them, in list order. */
  ghost function Blocks(ss: seq<Section>): (bs: seq<Block>)
    reads ss, set i, j | 0 <= i < |ss| && 0 <= j < |ss[i].keys| :: ss[i].keys[j]
    ensures |bs| == |ss|
  {
    seq(|ss|, i requires 0 <= i < |ss| reads ss, set i, j | 0 <= i < |ss| && 0 <= j < |ss[i].keys| :: ss[i].keys[j] => BlockOf(ss[i]))
  }

  /** Keys none of which has changed record the same fields. */
  twostate lemma FieldsUnchanged(keys: seq<Key>)
    requires forall j | 0 <= j < |keys| :: unchanged(keys[j])
    ensures Fields(keys) == old(Fields(keys))
  {
  }

  /** Sections none of which, and none of whose keys, has changed record
      the same blocks. */
  twostate lemma BlocksUnchanged(ss: seq<Section>)
    requires forall i | 0 <= i < |ss| :: unchanged(ss[i])
    requires forall i, j | 0 <= i < |ss| && 0 <= j < |ss[i].keys| :: unchanged(ss[i].keys[j])
    ensures Blocks(ss) == old(Blocks(ss))
  {
    forall i | 0 <= i < |ss| ensures BlockOf(ss[i]) == old(BlockOf(ss[i])) {
      FieldsUnchanged(ss[i].keys);
    }
  }
}
