/** The schema grammar of c-ini/c-ini.c as pure functions of the input and
    a parser cursor: each function here is what one `parse*` routine does,
    given the cursor it starts from, and returns the token it ends on, what
    it built and the cursor it leaves. The imperative parser in `Parser` is
    proved to follow these functions step by step; the properties of the
    grammar are stated on them. */
module Grammar {
  import opened Support
  import opened Lexer
  import opened Schema
  import opened TypeRules

  // ---------------------------------------------------------------------
  // parse_basic_data_type

  datatype Typed = Typed(tok: Token, t: DataType, c: Cursor)

  /** `parse_basic_data_type`, entered on an identifier: an optional
      `unsigned`, then a basic type name (a `char` followed by `*` being a
      dynamic string), or `struct str *`; anything else is an unknown type,
      left with the cursor on the identifier that names it. */
  function BasicDataType(data: seq<byte>, c: Cursor, tok: Token): (r: Typed)
    requires tok == TokIdentifier && Current(data, tok, c)
    ensures Current(data, r.tok, r.c) && c.head <= r.c.head
  {
    var unsigned := IsWord(c.value, "unsigned");
    var n1 := if unsigned then Next(data, c) else Lexed(tok, c);
    if n1.tok != TokIdentifier then Typed(TokError, Unknown, n1.c)
    else
      var kt := KeywordType(n1.c.value.sv.Text());
      if kt != Unknown then NamedType(data, n1.c, unsigned, kt)
      else if IsWord(n1.c.value, "struct") then StructType(data, n1.c)
      else Typed(n1.tok, Unknown, n1.c)
  }

  /** The part of `parse_basic_data_type` after a recognised type name
      `kt`, possibly preceded by `unsigned`. */
  function NamedType(data: seq<byte>, c: Cursor, unsigned: bool, kt: DataType): (r: Typed)
    requires c.head <= |data| && kt != Unknown
    ensures Current(data, r.tok, r.c) && c.head <= r.c.head
  {
    var n2 := Next(data, c);
    var t := if unsigned then MakeUnsigned(kt) else Some(kt);
    if t.None? then Typed(TokError, kt, n2.c)
    else if t.value == I8 && n2.tok == TokPunct('*') then
      var n3 := Next(data, n2.c);
      Typed(n3.tok, StrDynamic, n3.c)
    else Typed(n2.tok, t.value, n2.c)
  }

  /** The part of `parse_basic_data_type` after the word `struct`. */
  function StructType(data: seq<byte>, c: Cursor): (r: Typed)
    requires Current(data, TokIdentifier, c)
    ensures Current(data, r.tok, r.c) && c.head <= r.c.head
  {
    var n2 := Next(data, c);
    if n2.tok != TokIdentifier then Typed(TokError, Unknown, n2.c)
    else if IsWord(n2.c.value, "str") then
      var n3 := Next(data, n2.c);
      if n3.tok != TokPunct('*') then Typed(TokError, Unknown, n3.c)
      else
        var n4 := Next(data, n3.c);
        Typed(n4.tok, StrCustom, n4.c)
    else Typed(TokIdentifier, Unknown, n2.c)
  }

  /** `parse_basic_data_type` never yields a fixed-size string or a
      bitfield (those come from elsewhere), and an unknown type is reported
      on the identifier that names it. */
  lemma BasicDataTypeKinds(data: seq<byte>, c: Cursor)
    requires Current(data, TokIdentifier, c)
    ensures var r := BasicDataType(data, c, TokIdentifier);
            && (r.tok != TokError ==> !r.t.StrFixed? && !r.t.IBitfield? && !r.t.UBitfield?)
            && (r.tok != TokError && r.t == Unknown ==> r.tok == TokIdentifier)
  {
    var unsigned := IsWord(c.value, "unsigned");
    var n1 := if unsigned then Next(data, c) else Lexed(TokIdentifier, c);
    if n1.tok == TokIdentifier {
      MakeUnsignedKeepsWidth(KeywordType(n1.c.value.sv.Text()));
    }
  }

  /** `unsigned` before a recognised type name gives the unsigned type of
      the same width for `char`, 8, 16 and 32-bit signed names and `int`,
      and is an error for every other recognised type. */
  lemma UnsignedResolution(data: seq<byte>, c: Cursor)
    requires Current(data, TokIdentifier, c) && IsWord(c.value, "unsigned")
    requires Next(data, c).tok == TokIdentifier
    requires KeywordType(Next(data, c).c.value.sv.Text()) != Unknown
    ensures var kt := KeywordType(Next(data, c).c.value.sv.Text());
            var r := BasicDataType(data, c, TokIdentifier);
            && (MakeUnsigned(kt).None? ==> r.tok == TokError)
            && (MakeUnsigned(kt).Some? ==> r.t == MakeUnsigned(kt).value)
  {
  }

  /** `char *` (and its spellings `i8 *`, `int8_t *`) is a dynamic string. */
  lemma CharStarIsDynamicString(data: seq<byte>, c: Cursor)
    requires Current(data, TokIdentifier, c) && !IsWord(c.value, "unsigned")
    requires KeywordType(c.value.sv.Text()) == I8
    requires Next(data, c).tok == TokPunct('*')
    ensures BasicDataType(data, c, TokIdentifier).t == StrDynamic
  {
  }

  /** `struct str` is the custom string type only when `*` follows; without the
      `*` it is an error. Any other `struct` name is an unknown type. */
  lemma StructStrNeedsStar(data: seq<byte>, c: Cursor)
    requires Current(data, TokIdentifier, c) && IsWord(c.value, "struct")
    requires Next(data, c).tok == TokIdentifier
    ensures var n2 := Next(data, c);
            var r := BasicDataType(data, c, TokIdentifier);
            && (IsWord(n2.c.value, "str") && Next(data, n2.c).tok == TokPunct('*') ==> r.t == StrCustom)
            && (IsWord(n2.c.value, "str") && Next(data, n2.c).tok != TokPunct('*') ==> r.tok == TokError)
            && (!IsWord(n2.c.value, "str") ==> r.t == Unknown && r.tok == TokIdentifier)
  {
    assert !IsWord(c.value, "unsigned");
    assert KeywordType(c.value.sv.Text()) == Unknown;
    assert BasicDataType(data, c, TokIdentifier) == StructType(data, c);
  }

  /** A word (after an optional `unsigned`) that names no type and is not
      `struct` is passed back as an unknown type, on that word itself. */
  lemma OtherSpellingIsUnknown(data: seq<byte>, c: Cursor)
    requires Current(data, TokIdentifier, c)
    ensures var n1 := if IsWord(c.value, "unsigned") then Next(data, c) else Lexed(TokIdentifier, c);
            n1.tok == TokIdentifier && KeywordType(n1.c.value.sv.Text()) == Unknown && !IsWord(n1.c.value, "struct")
            ==> BasicDataType(data, c, TokIdentifier) == Typed(TokIdentifier, Unknown, n1.c)
  {
  }

  /** A recognised type name without `unsigned` is its own type, and parsing
      goes on with the token after it, unless it is `char *`. */
  lemma PlainNameIsItsType(data: seq<byte>, c: Cursor)
    requires Current(data, TokIdentifier, c) && !IsWord(c.value, "unsigned")
    ensures var kt := KeywordType(c.value.sv.Text());
            var n := Next(data, c);
            kt != Unknown && !(kt == I8 && n.tok == TokPunct('*'))
            ==> BasicDataType(data, c, TokIdentifier) == Typed(n.tok, kt, n.c)
  {
  }

  // ---------------------------------------------------------------------
  // parse_attribute_default, parse_attribute_constrain, parse_attributes

  datatype Attributed = Attributed(tok: Token, attr: Attributes, c: Cursor)

  /** `parse_attribute_default`, entered just after the word `DEFAULT`:
      `( value )` with the value checked against the key's type by
      `ApplyDefault`. Only the default changes. */
  function AttributeDefault(data: seq<byte>, c: Cursor, t: DataType, attr: Attributes): (r: Attributed)
    requires c.head <= |data|
    ensures Current(data, r.tok, r.c) && c.head <= r.c.head
    ensures r.tok != TokError ==> c.head < r.c.head
  {
    var n1 := Next(data, c);
    if n1.tok != TokPunct('(') then Attributed(TokError, attr, n1.c)
    else
      var n2 := Next(data, n1.c);
      var o := ApplyDefault(t, n2.tok, n2.c.value, attr);
      if !o.ok then Attributed(TokError, o.attr, n2.c)
      else
        var n3 := Next(data, n2.c);
        if n3.tok != TokPunct(')') then Attributed(TokError, o.attr, n3.c)
        else
          var n4 := Next(data, n3.c);
          Attributed(n4.tok, o.attr, n4.c)
  }

  /** `DEFAULT(n)` on a fixed-width integer field goes on exactly when `n`
      is an integer literal within the type's limits followed by `)`, and
      then makes `n` the default. */
  lemma DefaultOnFixedWidth(data: seq<byte>, c: Cursor, t: DataType, attr: Attributes)
    requires c.head <= |data| && IsFixedWidth(t)
    requires Next(data, c).tok == TokPunct('(')
    ensures var n2 := Next(data, Next(data, c).c);
            var n3 := Next(data, n2.c);
            var r := AttributeDefault(data, c, t, attr);
            && (r.tok != TokError <==>
                  n2.tok == TokInteger && InLimits(t, n2.c.value.i) && n3.tok == TokPunct(')') &&
                  Next(data, n3.c).tok != TokError)
            && (r.tok != TokError ==> r.attr.defaultValue == VInteger(n2.c.value.i))
  {
    var n2 := Next(data, Next(data, c).c);
    DefaultRules(t, n2.tok, n2.c.value, attr);
  }

  /** `parse_attribute_constrain`, entered just after the word `CONSTRAIN`:
      `( lo , hi )`, each bound checked by `ConstrainBound`, and `hi` not
      below `lo`. Each bound is stored as soon as it passes its own checks. */
  function AttributeConstrain(data: seq<byte>, c: Cursor, t: DataType, attr: Attributes): (r: Attributed)
    requires c.head <= |data|
    ensures Current(data, r.tok, r.c) && c.head <= r.c.head
    ensures r.tok != TokError ==> c.head < r.c.head
  {
    var n1 := Next(data, c);
    if n1.tok != TokPunct('(') then Attributed(TokError, attr, n1.c)
    else
      var n2 := Next(data, n1.c);
      var lo := ConstrainBound(t, n2.tok, n2.c.value);
      if lo.None? then Attributed(TokError, attr, n2.c)
      else
        var a1 := attr.(min := VInteger(lo.value));
        var n3 := Next(data, n2.c);
        if n3.tok != TokPunct(',') then Attributed(TokError, a1, n3.c)
        else
          var n4 := Next(data, n3.c);
          var hi := ConstrainBound(t, n4.tok, n4.c.value);
          if hi.None? then Attributed(TokError, a1, n4.c)
          else
            var a2 := a1.(max := VInteger(hi.value));
            if hi.value < lo.value then Attributed(TokError, a2, n4.c)
            else
              var n5 := Next(data, n4.c);
              if n5.tok != TokPunct(')') then Attributed(TokError, a2, n5.c)
              else
                var n6 := Next(data, n5.c);
                Attributed(n6.tok, a2, n6.c)
  }

  /** `CONSTRAIN` leaves the default alone; when it succeeds, the field is
      fixed-width or a float and the bounds it set are integers in order,
      within the type's limits for a fixed-width type. */
  lemma ConstrainSetsOrderedBounds(data: seq<byte>, c: Cursor, t: DataType, attr: Attributes)
    requires c.head <= |data|
    ensures var r := AttributeConstrain(data, c, t, attr);
            && r.attr.defaultValue == attr.defaultValue
            && (r.tok != TokError ==> (IsFixedWidth(t) || t.Float?) &&
                                      r.attr.min.VInteger? && r.attr.max.VInteger? && r.attr.min.i <= r.attr.max.i)
            && (r.tok != TokError && IsFixedWidth(t) ==> InLimits(t, r.attr.min.i) && InLimits(t, r.attr.max.i))
  {
    var n1 := Next(data, c);
    if n1.tok == TokPunct('(') {
      var n2 := Next(data, n1.c);
      ConstrainRules(t, n2.tok, n2.c.value);
      var n4 := Next(data, Next(data, n2.c).c);
      ConstrainRules(t, n4.tok, n4.c.value);
    }
  }

  /** A maximum below the minimum is refused, whatever follows. */
  lemma ConstrainRejectsReversedBounds(data: seq<byte>, c: Cursor, t: DataType, attr: Attributes)
    requires c.head <= |data|
    requires var n1 := Next(data, c); var n2 := Next(data, n1.c);
             var n3 := Next(data, n2.c); var n4 := Next(data, n3.c);
             && n1.tok == TokPunct('(') && n2.tok == TokInteger && n3.tok == TokPunct(',')
             && n4.tok == TokInteger && n4.c.value.i < n2.c.value.i
    ensures AttributeConstrain(data, c, t, attr).tok == TokError
  {
  }

  /** `parse_attributes`: `DEFAULT(...)` and `CONSTRAIN(...)` in any number
      and order, up to the first token that is not an identifier; the first
      error stops the list. */
  function AttributeList(data: seq<byte>, c: Cursor, tok: Token, t: DataType, attr: Attributes): (r: Attributed)
    requires Current(data, tok, c)
    ensures Current(data, r.tok, r.c) && c.head <= r.c.head
    ensures r.tok != TokIdentifier
    decreases |data| - c.head
  {
    if tok != TokIdentifier then Attributed(tok, attr, c)
    else
      var d := Attribute(data, c, t, attr);
      if d.tok == TokError then d else AttributeList(data, d.c, d.tok, t, d.attr)
  }

  /** One pass of the loop of `parse_attributes`, on an identifier: the
      attribute it names. Any word other than `DEFAULT` and `CONSTRAIN`,
      `IGNORE` included, is an error here. */
  function Attribute(data: seq<byte>, c: Cursor, t: DataType, attr: Attributes): (r: Attributed)
    requires Current(data, TokIdentifier, c)
    ensures Current(data, r.tok, r.c) && c.head <= r.c.head
    ensures r.tok != TokError ==> c.head < r.c.head
  {
    if IsWord(c.value, "DEFAULT") then AttributeDefault(data, c, t, attr)
    else if IsWord(c.value, "CONSTRAIN") then AttributeConstrain(data, c, t, attr)
    else Attributed(TokError, attr, c)
  }

  /** `DEFAULT` changes only the default, and one that succeeds keeps a
      key's attributes well formed. */
  lemma DefaultKeepsWellFormed(data: seq<byte>, c: Cursor, t: DataType, attr: Attributes)
    requires c.head <= |data|
    ensures var r := AttributeDefault(data, c, t, attr);
            && r.attr.min == attr.min && r.attr.max == attr.max
            && (r.tok != TokError && AttrsWellFormed(t, attr) ==> AttrsWellFormed(t, r.attr))
  {
    var n1 := Next(data, c);
    if n1.tok == TokPunct('(') {
      var n2 := Next(data, n1.c);
      DefaultRules(t, n2.tok, n2.c.value, attr);
    }
  }

  /** A `CONSTRAIN` that succeeds keeps a key's attributes well formed. */
  lemma ConstrainKeepsWellFormed(data: seq<byte>, c: Cursor, t: DataType, attr: Attributes)
    requires c.head <= |data| && AttrsWellFormed(t, attr)
    ensures var r := AttributeConstrain(data, c, t, attr);
            r.tok != TokError ==> AttrsWellFormed(t, r.attr)
  {
    ConstrainSetsOrderedBounds(data, c, t, attr);
  }

  /** `AttributeList` as the contract of `Parser.ParseAttributes` states it,
      so that a caller sees one step of the recursion at a time. */
  function AttributeListSpec(data: seq<byte>, c: Cursor, tok: Token, t: DataType, attr: Attributes): (r: Attributed)
    requires Current(data, tok, c)
  {
    AttributeList(data, c, tok, t, attr)
  }

  /** One pass of the loop of `parse_attributes`, as `Parser.ParseAttributes`
      takes it: on an identifier, one attribute, then the rest of the list
      unless it failed. */
  lemma AttributeListStep(data: seq<byte>, c: Cursor, t: DataType, attr: Attributes)
    requires Current(data, TokIdentifier, c)
    ensures var d := Attribute(data, c, t, attr);
            AttributeListSpec(data, c, TokIdentifier, t, attr) ==
              if d.tok == TokError then d else AttributeListSpec(data, d.c, d.tok, t, d.attr)
  {
  }

  /** An attribute list read without error keeps a key's attributes well
      formed, however many attributes it holds. */
  lemma {:induction false} AttributeListKeepsWellFormed(data: seq<byte>, c: Cursor, tok: Token, t: DataType, attr: Attributes)
    requires Current(data, tok, c) && AttrsWellFormed(t, attr)
    ensures var r := AttributeList(data, c, tok, t, attr);
            r.tok != TokError ==> AttrsWellFormed(t, r.attr)
    decreases |data| - c.head
  {
    if tok == TokIdentifier {
      AttributeKeepsWellFormed(data, c, t, attr);
      var d := Attribute(data, c, t, attr);
      if d.tok != TokError {
        AttributeListKeepsWellFormed(data, d.c, d.tok, t, d.attr);
      }
    }
  }

  /** Each attribute read without error keeps a key's attributes well
      formed. */
  lemma AttributeKeepsWellFormed(data: seq<byte>, c: Cursor, t: DataType, attr: Attributes)
    requires Current(data, TokIdentifier, c) && AttrsWellFormed(t, attr)
    ensures var r := Attribute(data, c, t, attr);
            r.tok != TokError ==> AttrsWellFormed(t, r.attr)
  {
    if IsWord(c.value, "DEFAULT") {
      DefaultKeepsWellFormed(data, c, t, attr);
    } else if IsWord(c.value, "CONSTRAIN") {
      ConstrainKeepsWellFormed(data, c, t, attr);
    }
  }

  // ---------------------------------------------------------------------
  // parse_struct_known_data_type, parse_struct_unknown_data_type

  /** A key as the schema records it: name, type and attributes. */
  datatype Field = Field(name: StrView, t: DataType, attr: Attributes)

  /** A key the parser leaves behind after a successful parse. */
  predicate FieldOk(data: seq<byte>, f: Field) {
    f.name.source == data && f.name.Valid() && 0 < f.name.len && AttrsWellFormed(f.t, f.attr)
  }

  predicate FieldsOk(data: seq<byte>, fields: seq<Field>) {
    forall i | 0 <= i < |fields| :: FieldOk(data, fields[i])
  }

  lemma JoinFields(data: seq<byte>, here: seq<Field>, rest: seq<Field>)
    ensures FieldsOk(data, here) && FieldsOk(data, rest) ==> FieldsOk(data, here + rest)
  {
    if FieldsOk(data, here) && FieldsOk(data, rest) {
      forall i | 0 <= i < |here + rest| ensures FieldOk(data, (here + rest)[i]) {
        if i >= |here| { assert (here + rest)[i] == rest[i - |here|]; }
      }
    }
  }

  datatype Declared = Declared(tok: Token, key: Option<Field>, c: Cursor)

  /** The keys a declarator adds to its section: none or one. */
  function Listed(key: Option<Field>): seq<Field> {
    if key.Some? then [key.value] else []
  }

  /** `key_create`, the default seeding and `parse_attributes` for a key of
      type `t` named `name`, once the token after its declarator is read. */
  function DeclareKey(data: seq<byte>, name: StrView, t: DataType, n: Lexed): (r: Declared)
    requires Current(data, n.tok, n.c) && t != Unknown
    ensures Current(data, r.tok, r.c) && n.c.head <= r.c.head
  {
    var a := AttributeList(data, n.c, n.tok, t, DefaultAttributes(t));
    Declared(a.tok, Some(Field(name, t, a.attr)), a.c)
  }

  /** A key declared without error has well-formed attributes: the seeding
      for its type, then its attributes. */
  lemma DeclareKeyWellFormed(data: seq<byte>, name: StrView, t: DataType, n: Lexed)
    requires Current(data, n.tok, n.c) && t != Unknown
    ensures var r := DeclareKey(data, name, t, n);
            r.tok != TokError ==> AttrsWellFormed(t, r.key.value.attr)
  {
    DefaultAttributesWellFormed(t);
    AttributeListKeepsWellFormed(data, n.c, n.tok, t, DefaultAttributes(t));
  }

  /** The optional `[n]` after a key name: whether it was well formed, the
      type it leaves (a `char` array becomes a fixed-size string; `n` itself
      is not kept) and the token after it. */
  datatype Suffixed = Suffixed(ok: bool, t: DataType, n: Lexed)

  function ArraySuffix(data: seq<byte>, c: Cursor, t: DataType): (s: Suffixed)
    requires c.head <= |data|
    ensures Current(data, s.n.tok, s.n.c) && c.head <= s.n.c.head
    ensures !s.ok ==> s.n.tok == TokError
  {
    var n1 := Next(data, c);
    if n1.tok != TokPunct('[') then Suffixed(true, t, n1)
    else
      var n2 := Next(data, n1.c);
      if n2.tok != TokInteger || t != I8 then Suffixed(false, t, Lexed(TokError, n2.c))
      else
        var n3 := Next(data, n2.c);
        if n3.tok != TokPunct(']') then Suffixed(false, t, Lexed(TokError, n3.c))
        else Suffixed(true, StrFixed, Next(data, n3.c))
  }

  /** `parse_struct_known_data_type`: a key name, an optional `[n]` (legal
      only on a `char` field), then the key's attributes. */
  function KnownDataType(data: seq<byte>, c: Cursor, t: DataType, tok: Token): (r: Declared)
    requires Current(data, tok, c) && t != Unknown
    ensures Current(data, r.tok, r.c) && c.head <= r.c.head
    ensures r.tok.TokPunct? ==> c.head < r.c.head
  {
    if tok != TokIdentifier then Declared(TokError, None, c)
    else
      var s := ArraySuffix(data, c, t);
      if !s.ok then Declared(TokError, None, s.n.c)
      else DeclareKey(data, c.value.sv, s.t, s.n)
  }

  /** The key `parse_struct_known_data_type` creates: one exactly when no
      error came before its attributes, always when none came at all; it
      is named by the identifier it starts on and has the declared type,
      which becomes a fixed-size string exactly when `[n]` follows a `char`
      name. `[n]` after any other type is an error and creates no key. */
  lemma KnownDataTypeShape(data: seq<byte>, c: Cursor, t: DataType, tok: Token)
    requires Current(data, tok, c) && t != Unknown
    ensures var r := KnownDataType(data, c, t, tok);
            && (r.tok != TokError ==> r.key.Some?)
            && (r.key.Some? ==> tok == TokIdentifier && r.key.value.name == c.value.sv)
            && (r.key.Some? && t != StrFixed ==>
                  (r.key.value.t == StrFixed <==> Next(data, c).tok == TokPunct('[')) &&
                  (r.key.value.t == StrFixed || r.key.value.t == t))
            && (r.key.Some? && r.key.value.t == StrFixed ==> t == I8 || t == StrFixed)
            && (tok == TokIdentifier && Next(data, c).tok == TokPunct('[') && t != I8 ==>
                  r.tok == TokError && r.key.None?)
  {
  }

  /** A key of known type read without error is well formed. */
  lemma KnownDataTypeKeyOk(data: seq<byte>, c: Cursor, t: DataType, tok: Token)
    requires Current(data, tok, c) && t != Unknown
    ensures var r := KnownDataType(data, c, t, tok);
            r.tok != TokError ==> FieldOk(data, r.key.value)
  {
    if tok == TokIdentifier {
      var s := ArraySuffix(data, c, t);
      if s.ok {
        DeclareKeyWellFormed(data, c.value.sv, s.t, s.n);
      }
    }
  }

  datatype Bypassed = Bypassed(tok: Token, c: Cursor, ignore: Option<StrView>)

  /** The view of an `IGNORE` word that ends at or before `head`. */
  predicate IgnoreSeen(data: seq<byte>, ignore: Option<StrView>, head: nat) {
    ignore.Some? ==>
      ignore.value.source == data && ignore.value.Valid() && ignore.value.Text() == "IGNORE" &&
      ignore.value.off + ignore.value.len <= head
  }

  /** `parse_struct_unknown_data_type`: a field of an unknown type is passed
      over up to the next `;` or `,`, which is accepted only when an
      `IGNORE ( )` came before it; `ignore` is the `IGNORE` seen so far. */
  function UnknownDataType(data: seq<byte>, c: Cursor, tok: Token, ignore: Option<StrView>): (r: Bypassed)
    requires Current(data, tok, c) && IgnoreSeen(data, ignore, c.head)
    ensures Current(data, r.tok, r.c) && c.head <= r.c.head
    ensures IgnoreSeen(data, r.ignore, r.c.head)
    ensures r.tok != TokError ==> (r.tok == TokPunct(';') || r.tok == TokPunct(',')) && r.ignore.Some?
    ensures ignore.None? && r.tok != TokError ==> c.head < r.c.head
    decreases |data| - c.head, if tok == TokError || tok == TokEnd then 0 else 1
  {
    if tok == TokError || tok == TokEnd then Bypassed(TokError, c, ignore)
    else if tok == TokIdentifier && IsWord(c.value, "IGNORE") then
      var n1 := Next(data, c);
      if n1.tok != TokPunct('(') then Bypassed(TokError, n1.c, ignore)
      else
        var n2 := Next(data, n1.c);
        if n2.tok != TokPunct(')') then Bypassed(TokError, n2.c, ignore)
        else
          var n3 := Next(data, n2.c);
          UnknownDataType(data, n3.c, n3.tok, Some(c.value.sv))
    else if tok == TokPunct(';') || tok == TokPunct(',') then
      if ignore.Some? then Bypassed(tok, c, ignore) else Bypassed(TokError, c, ignore)
    else
      var n1 := Next(data, c);
      UnknownDataType(data, n1.c, n1.tok, ignore)
  }

  /** `UnknownDataType` as the contract of
      `Parser.ParseStructUnknownDataType` states it, so that a caller sees
      one step of the recursion at a time. */
  function UnknownDataTypeSpec(data: seq<byte>, c: Cursor, tok: Token, ignore: Option<StrView>): (r: Bypassed)
    requires Current(data, tok, c) && IgnoreSeen(data, ignore, c.head)
  {
    UnknownDataType(data, c, tok, ignore)
  }

  /** One pass of the loop of `parse_struct_unknown_data_type`, as
      `Parser.ParseStructUnknownDataType` takes it. */
  lemma UnknownDataTypeStep(data: seq<byte>, c: Cursor, tok: Token, ignore: Option<StrView>)
    requires Current(data, tok, c) && IgnoreSeen(data, ignore, c.head)
    ensures UnknownDataTypeSpec(data, c, tok, ignore) ==
      if tok == TokError || tok == TokEnd then Bypassed(TokError, c, ignore)
      else if tok == TokIdentifier && IsWord(c.value, "IGNORE") then
        var n1 := Next(data, c);
        if n1.tok != TokPunct('(') then Bypassed(TokError, n1.c, ignore)
        else
          var n2 := Next(data, n1.c);
          if n2.tok != TokPunct(')') then Bypassed(TokError, n2.c, ignore)
          else
            var n3 := Next(data, n2.c);
            UnknownDataTypeSpec(data, n3.c, n3.tok, Some(c.value.sv))
      else if tok == TokPunct(';') || tok == TokPunct(',') then
        if ignore.Some? then Bypassed(tok, c, ignore) else Bypassed(TokError, c, ignore)
      else
        var n1 := Next(data, c);
        UnknownDataTypeSpec(data, n1.c, n1.tok, ignore)
  {
  }

  /** The tokens `parse_struct_unknown_data_type` acts on: the separators,
      `IGNORE`, the end and an error. */
  predicate Acted(tok: Token, v: Lexeme) {
    || tok == TokError || tok == TokEnd || tok == TokPunct(';') || tok == TokPunct(',')
    || (tok == TokIdentifier && IsWord(v, "IGNORE"))
  }

  /** The first token at or after `c` that the recovery loop acts on. */
  function SkipToActed(data: seq<byte>, c: Cursor, tok: Token): (r: Lexed)
    requires Current(data, tok, c)
    ensures Current(data, r.tok, r.c) && c.head <= r.c.head
    ensures Acted(r.tok, r.c.value)
    decreases |data| - c.head, if Acted(tok, c.value) then 0 else 1
  {
    if Acted(tok, c.value) then Lexed(tok, c)
    else
      var n1 := Next(data, c);
      SkipToActed(data, n1.c, n1.tok)
  }

  /** Every other token of a field of unknown type is passed over without
      effect. */
  lemma {:induction false} SkippedTokensDoNotMatter(data: seq<byte>, c: Cursor, tok: Token, ignore: Option<StrView>)
    requires Current(data, tok, c) && IgnoreSeen(data, ignore, c.head)
    ensures var s := SkipToActed(data, c, tok);
            UnknownDataType(data, c, tok, ignore) == UnknownDataType(data, s.c, s.tok, ignore)
    decreases |data| - c.head, if Acted(tok, c.value) then 0 else 1
  {
    if !Acted(tok, c.value) {
      var n1 := Next(data, c);
      SkippedTokensDoNotMatter(data, n1.c, n1.tok, ignore);
    }
  }

  /** `IGNORE ( )` directly followed by `;` or `,` ends a field of unknown
      type: parsing goes on with that separator. */
  lemma IgnoreThenSeparatorIsAccepted(data: seq<byte>, c: Cursor)
    requires Current(data, TokIdentifier, c) && IsWord(c.value, "IGNORE")
    ensures var n1 := Next(data, c);
            var n2 := Next(data, n1.c);
            var n3 := Next(data, n2.c);
            n1.tok == TokPunct('(') && n2.tok == TokPunct(')') && (n3.tok == TokPunct(';') || n3.tok == TokPunct(','))
            ==> UnknownDataType(data, c, TokIdentifier, None) == Bypassed(n3.tok, n3.c, Some(c.value.sv))
  {
  }

  /** A field of unknown type is accepted when the first separator,
      `IGNORE`, end or error in it is an `IGNORE ( )` directly followed by
      `;` or `,`; a separator, the end or an error met first is an error. */
  lemma IgnoreBeforeSeparatorIsAccepted(data: seq<byte>, c: Cursor, tok: Token)
    requires Current(data, tok, c)
    ensures var s := SkipToActed(data, c, tok);
            var n1 := Next(data, s.c);
            var n2 := Next(data, n1.c);
            var n3 := Next(data, n2.c);
            var r := UnknownDataType(data, c, tok, None);
            && (s.tok == TokIdentifier && n1.tok == TokPunct('(') && n2.tok == TokPunct(')')
                && (n3.tok == TokPunct(';') || n3.tok == TokPunct(','))
                ==> r == Bypassed(n3.tok, n3.c, Some(s.c.value.sv)))
            && (s.tok != TokIdentifier ==> r.tok == TokError)
  {
    SkippedTokensDoNotMatter(data, c, tok, None);
    var s := SkipToActed(data, c, tok);
    if s.tok == TokIdentifier {
      IgnoreThenSeparatorIsAccepted(data, s.c);
    }
  }

  // ---------------------------------------------------------------------
  // parse_struct

  datatype Body = Body(tok: Token, fields: seq<Field>, c: Cursor)

  predicate SameBase(declared: DataType, t: DataType) {
    declared == t || (t == I8 && declared == StrFixed)
  }

  /** `parse_struct`: declarations up to the first token that does not start
      one (normally the closing `}`). */
  function StructBody(data: seq<byte>, c: Cursor): (r: Body)
    requires c.tail <= c.head <= |data|
    ensures Current(data, r.tok, r.c) && c.head <= r.c.head
    ensures r.tok != TokIdentifier
    decreases |data| - c.head, 3
  {
    var n1 := Next(data, c);
    if n1.tok != TokIdentifier then Body(n1.tok, [], n1.c)
    else Declaration(data, n1.c)
  }

  /** One declaration of `parse_struct`, entered on the identifier that
      starts it: a type, then its declarators. */
  function Declaration(data: seq<byte>, c: Cursor): (r: Body)
    requires Current(data, TokIdentifier, c)
    ensures Current(data, r.tok, r.c) && c.head <= r.c.head
    ensures r.tok != TokIdentifier
    decreases |data| - c.head, 2
  {
    var b := BasicDataType(data, c, TokIdentifier);
    if b.tok == TokError || b.tok == TokEnd then Body(b.tok, [], b.c)
    else FieldList(data, b.c, b.tok, b.t)
  }

  /** One declarator: a key of known type `t`, or a field of unknown type
      passed over. */
  function Declarator(data: seq<byte>, c: Cursor, tok: Token, t: DataType): (d: Declared)
    requires Current(data, tok, c)
    ensures Current(data, d.tok, d.c) && c.head <= d.c.head
    ensures d.tok == TokPunct(';') || d.tok == TokPunct(',') ==> c.head < d.c.head
  {
    if t != Unknown then KnownDataType(data, c, t, tok)
    else
      var u := UnknownDataType(data, c, tok, None);
      Declared(u.tok, None, u.c)
  }

  /** A declarator creates a key exactly when its type is known and it
      reads without error, and a key it creates is well formed and has the
      declared type, or a fixed-size string for a `char` array. */
  lemma DeclaratorKeyOk(data: seq<byte>, c: Cursor, tok: Token, t: DataType)
    requires Current(data, tok, c)
    ensures var d := Declarator(data, c, tok, t);
            && (t == Unknown ==> d.key.None?)
            && (d.tok != TokError && t != Unknown ==> d.key.Some?)
            && (d.key.Some? ==> SameBase(d.key.value.t, t) || t == StrFixed)
            && (d.tok != TokError && d.key.Some? ==> FieldOk(data, d.key.value))
  {
    if t != Unknown {
      KnownDataTypeShape(data, c, t, tok);
      KnownDataTypeKeyOk(data, c, t, tok);
    }
  }

  /** One item of the declarator list: the token after a declarator of
      the list's type and the `,` or `;` that follows it; `more` when the
      list goes on. */
  datatype Item = Item(more: bool, tok: Token, here: seq<Field>, c: Cursor)

  /** One pass through `next_in_list`: a declarator, then after `,` the
      token that starts the next declarator; after `;` the list ends, and
      anything else is an error. */
  function ListItem(data: seq<byte>, c: Cursor, tok: Token, t: DataType): (r: Item)
    requires Current(data, tok, c)
    ensures Current(data, r.tok, r.c) && c.head <= r.c.head
    ensures r.more || r.tok == TokPunct(';') ==> c.head < r.c.head
    ensures !r.more ==> r.tok == TokPunct(';') || r.tok == TokError
  {
    var d := Declarator(data, c, tok, t);
    if d.tok == TokPunct(',') then
      var n1 := Next(data, d.c);
      Item(true, n1.tok, Listed(d.key), n1.c)
    else if d.tok == TokPunct(';') then Item(false, d.tok, Listed(d.key), d.c)
    else Item(false, TokError, Listed(d.key), d.c)
  }

  /** The `next_in_list` part of `parse_struct`: declarators of type `t`
      separated by `,`; after `;` the next declaration. An unknown type
      creates no key. */
  function FieldList(data: seq<byte>, c: Cursor, tok: Token, t: DataType): (r: Body)
    requires Current(data, tok, c)
    ensures Current(data, r.tok, r.c) && c.head <= r.c.head
    ensures r.tok != TokIdentifier
    decreases |data| - c.head, 1
  {
    var i := ListItem(data, c, tok, t);
    if i.more then Join(i.here, FieldList(data, i.c, i.tok, t))
    else if i.tok == TokError then Body(TokError, i.here, i.c)
    else Join(i.here, StructBody(data, i.c))
  }

  /** `StructBody`, `Declaration` and `FieldList` as the contracts of the
      methods of `Parser` state them, so that a caller sees one step of the
      recursion at a time. */
  function StructBodySpec(data: seq<byte>, c: Cursor): (r: Body)
    requires c.tail <= c.head <= |data|
  {
    StructBody(data, c)
  }

  function DeclarationSpec(data: seq<byte>, c: Cursor): (r: Body)
    requires Current(data, TokIdentifier, c)
  {
    Declaration(data, c)
  }

  function FieldListSpec(data: seq<byte>, c: Cursor, tok: Token, t: DataType): (r: Body)
    requires Current(data, tok, c)
  {
    FieldList(data, c, tok, t)
  }

  /** A declaration, as `Parser.ParseTypedDeclaration` takes it: the type,
      then the declarator list unless the type failed or the input ended. */
  lemma DeclarationStep(data: seq<byte>, c: Cursor)
    requires Current(data, TokIdentifier, c)
    ensures var b := BasicDataType(data, c, TokIdentifier);
            DeclarationSpec(data, c) ==
              if b.tok == TokError || b.tok == TokEnd then Body(b.tok, [], b.c)
              else FieldListSpec(data, b.c, b.tok, b.t)
  {
  }

  /** One step of the declarator list, as `Parser.ParseFieldList` takes it
      with the keys `got` already collected. */
  lemma FieldListStep(data: seq<byte>, c: Cursor, tok: Token, t: DataType, got: seq<Field>)
    requires Current(data, tok, c)
    ensures var i := ListItem(data, c, tok, t);
            Join(got, FieldListSpec(data, c, tok, t)) ==
              if i.more then Join(got + i.here, FieldListSpec(data, i.c, i.tok, t))
              else if i.tok == TokError then Body(TokError, got + i.here, i.c)
              else Join(got + i.here, StructBodySpec(data, i.c))
  {
    var i := ListItem(data, c, tok, t);
    FieldListUnfold(data, c, tok, t);
    var rest := if i.more then FieldList(data, i.c, i.tok, t)
                else if i.tok == TokError then Body(TokError, [], i.c)
                else StructBody(data, i.c);
    JoinJoin(got, i.here, rest);
  }

  lemma FieldListUnfold(data: seq<byte>, c: Cursor, tok: Token, t: DataType)
    requires Current(data, tok, c)
    ensures var i := ListItem(data, c, tok, t);
            FieldList(data, c, tok, t) ==
              Join(i.here, if i.more then FieldList(data, i.c, i.tok, t)
                           else if i.tok == TokError then Body(TokError, [], i.c)
                           else StructBody(data, i.c))
  {
  }

  /** Every key of a struct body that ends without error is well formed:
      a name that is a non-empty view into the input and attributes that
      respect its type. */
  lemma {:induction false} StructBodyKeysOk(data: seq<byte>, c: Cursor)
    requires c.tail <= c.head <= |data|
    ensures var r := StructBody(data, c);
            r.tok != TokError ==> FieldsOk(data, r.fields)
    decreases |data| - c.head, 3
  {
    var n1 := Next(data, c);
    if n1.tok == TokIdentifier {
      DeclarationKeysOk(data, n1.c);
    }
  }

  lemma {:induction false} DeclarationKeysOk(data: seq<byte>, c: Cursor)
    requires Current(data, TokIdentifier, c)
    ensures var r := Declaration(data, c);
            r.tok != TokError ==> FieldsOk(data, r.fields)
    decreases |data| - c.head, 2
  {
    var b := BasicDataType(data, c, TokIdentifier);
    if b.tok != TokError && b.tok != TokEnd {
      FieldListKeysOk(data, b.c, b.tok, b.t);
    }
  }

  lemma {:induction false} FieldListKeysOk(data: seq<byte>, c: Cursor, tok: Token, t: DataType)
    requires Current(data, tok, c)
    ensures var r := FieldList(data, c, tok, t);
            r.tok != TokError ==> FieldsOk(data, r.fields)
    decreases |data| - c.head, 1
  {
    var i := ListItem(data, c, tok, t);
    FieldListUnfold(data, c, tok, t);
    ListItemKeysOk(data, c, tok, t);
    if i.more {
      FieldListKeysOk(data, i.c, i.tok, t);
      JoinFields(data, i.here, FieldList(data, i.c, i.tok, t).fields);
    } else if i.tok != TokError {
      StructBodyKeysOk(data, i.c);
      JoinFields(data, i.here, StructBody(data, i.c).fields);
    }
  }

  /** A declarator followed by `,` or `;` leaves well-formed keys. */
  lemma ListItemKeysOk(data: seq<byte>, c: Cursor, tok: Token, t: DataType)
    requires Current(data, tok, c)
    ensures var i := ListItem(data, c, tok, t);
            i.more || i.tok == TokPunct(';') ==> FieldsOk(data, i.here)
  {
    DeclaratorKeyOk(data, c, tok, t);
  }

  /** The first key of a declarator list has the list's type, or is a
      fixed-size string when the type is `char`. */
  lemma FirstFieldType(data: seq<byte>, c: Cursor, tok: Token, t: DataType)
    requires Current(data, tok, c) && t != Unknown && t != StrFixed
    ensures var r := FieldList(data, c, tok, t);
            r.fields != [] ==> SameBase(r.fields[0].t, t)
  {
    DeclaratorKeyOk(data, c, tok, t);
  }

  /** The keys one declaration's list of declarators (`int a, b, c;`)
      contributes, with the `;` that ends it (or the error that cuts it
      short) and the cursor there. */
  function ListRun(data: seq<byte>, c: Cursor, tok: Token, t: DataType): (r: Body)
    requires Current(data, tok, c)
    ensures Current(data, r.tok, r.c) && c.head <= r.c.head
    ensures r.tok == TokPunct(';') || r.tok == TokError
    decreases |data| - c.head
  {
    var i := ListItem(data, c, tok, t);
    if i.more then Join(i.here, ListRun(data, i.c, i.tok, t))
    else Body(i.tok, i.here, i.c)
  }

  lemma ListRunUnfold(data: seq<byte>, c: Cursor, tok: Token, t: DataType)
    requires Current(data, tok, c)
    ensures var i := ListItem(data, c, tok, t);
            ListRun(data, c, tok, t) ==
              if i.more then Join(i.here, ListRun(data, i.c, i.tok, t)) else Body(i.tok, i.here, i.c)
  {
  }

  /** `FieldList` is the declaration's own keys followed by the struct body
      after its `;`. */
  lemma {:induction false} FieldListSplits(data: seq<byte>, c: Cursor, tok: Token, t: DataType)
    requires Current(data, tok, c)
    ensures var l := ListRun(data, c, tok, t);
            FieldList(data, c, tok, t) == if l.tok == TokError then l else Join(l.fields, StructBody(data, l.c))
    decreases |data| - c.head
  {
    var i := ListItem(data, c, tok, t);
    FieldListUnfold(data, c, tok, t);
    ListRunUnfold(data, c, tok, t);
    if i.more {
      FieldListSplits(data, i.c, i.tok, t);
      var l := ListRun(data, i.c, i.tok, t);
      if l.tok != TokError {
        JoinJoin(i.here, l.fields, StructBody(data, l.c));
      }
    }
  }

  /** All keys in `fs` have type `t`, or are fixed-size strings when `t` is
      `char`. */
  predicate OfType(fs: seq<Field>, t: DataType) {
    forall f | f in fs :: SameBase(f.t, t)
  }

  /** Every key of a declarator list has the list's type, or is a
      fixed-size string when the type is `char`. */
  lemma {:induction false} ListRunSameType(data: seq<byte>, c: Cursor, tok: Token, t: DataType)
    requires Current(data, tok, c) && t != StrFixed
    ensures OfType(ListRun(data, c, tok, t).fields, t)
    decreases |data| - c.head
  {
    var i := ListItem(data, c, tok, t);
    ListRunUnfold(data, c, tok, t);
    ListItemSameType(data, c, tok, t);
    if i.more {
      ListRunSameType(data, i.c, i.tok, t);
      var rest := ListRun(data, i.c, i.tok, t).fields;
      assert forall f | f in i.here + rest :: f in i.here || f in rest;
    }
  }

  lemma ListItemSameType(data: seq<byte>, c: Cursor, tok: Token, t: DataType)
    requires Current(data, tok, c) && t != StrFixed
    ensures OfType(ListItem(data, c, tok, t).here, t)
  {
    DeclaratorKeyOk(data, c, tok, t);
  }

  /** The names chained by `,` in one declaration all take the type written
      before the first of them; the declaration's keys come before those of
      the declarations that follow its `;`. */
  lemma DeclarationKeysShareType(data: seq<byte>, c: Cursor)
    requires Current(data, TokIdentifier, c)
    ensures var b := BasicDataType(data, c, TokIdentifier);
            b.tok != TokError && b.tok != TokEnd ==>
              var l := ListRun(data, b.c, b.tok, b.t);
              && Declaration(data, c) == (if l.tok == TokError then l else Join(l.fields, StructBody(data, l.c)))
              && OfType(l.fields, b.t)
  {
    var b := BasicDataType(data, c, TokIdentifier);
    if b.tok != TokError && b.tok != TokEnd {
      BasicDataTypeKinds(data, c);
      FieldListSplits(data, b.c, b.tok, b.t);
      ListRunSameType(data, b.c, b.tok, b.t);
    }
  }

  /** A struct body with keys already collected ahead of it. */
  function Join(fs: seq<Field>, b: Body): Body {
    Body(b.tok, fs + b.fields, b.c)
  }

  lemma JoinJoin(a: seq<Field>, b: seq<Field>, r: Body)
    ensures Join(a, Join(b, r)) == Join(a + b, r)
  {
  }

  // ---------------------------------------------------------------------
  // parse

  /** A section as the schema records it. */
  datatype Block = Block(name: StrView, structName: StrView, structDef: StrView, fields: seq<Field>)

  /** A section the parser leaves behind after a successful parse: names
      that are views into the input, well-formed keys, and for a source file
      the text from `struct` through the closing `}`; a header records no
      struct text. */
  predicate BlockOk(data: seq<byte>, b: Block, isSource: bool) {
    && b.name.source == data && b.name.Valid()
    && b.structName.source == data && b.structName.Valid() && 0 < b.structName.len
    && FieldsOk(data, b.fields)
    && (isSource ==>
          b.structDef.source == data && b.structDef.Valid() && 7 <= b.structDef.len &&
          b.structDef.Text()[..6] == "struct" && b.structDef.Text()[b.structDef.len - 1] == '}')
    && (!isSource ==> b.structDef == EmptyStrView())
  }

  predicate AllBlocksOk(data: seq<byte>, blocks: seq<Block>, isSource: bool) {
    forall i | 0 <= i < |blocks| :: BlockOk(data, blocks[i], isSource)
  }

  lemma PrependBlock(data: seq<byte>, b: Block, blocks: seq<Block>, isSource: bool)
    ensures BlockOk(data, b, isSource) && AllBlocksOk(data, blocks, isSource) ==>
            AllBlocksOk(data, [b] + blocks, isSource)
  {
    if BlockOk(data, b, isSource) && AllBlocksOk(data, blocks, isSource) {
      forall i | 0 <= i < |[b] + blocks| ensures BlockOk(data, ([b] + blocks)[i], isSource) {
        if i > 0 { assert ([b] + blocks)[i] == blocks[i - 1]; }
      }
    }
  }

  datatype Parsed = Parsed(ok: bool, blocks: seq<Block>, c: Cursor)

  /** The cursor `scan_until_section` leaves on the `SECTION` at `p`. */
  function AtSection(data: seq<byte>, p: nat): (c: Cursor)
    requires SectionAt(data, p)
    ensures Current(data, TokIdentifier, c) && IsWord(c.value, "SECTION")
  {
    Cursor(p, p + 7, LexStr(StrView(data, p, 7)))
  }

  /** The header of a section: what `parse` reads from `SECTION` through
      `{`, namely the section name, the `struct` keyword (where a source
      file's struct text starts) and the struct name. */
  datatype Header = Header(ok: bool, name: StrView, def: StrView, structName: StrView, c: Cursor)

  function SectionHeader(data: seq<byte>, p: nat): (h: Header)
    requires SectionAt(data, p)
    ensures h.c.tail <= h.c.head <= |data| && p < h.c.head
    ensures h.ok ==> && h.name.source == data && h.name.Valid()
                     && h.structName.source == data && h.structName.Valid() && 0 < h.structName.len
                     && h.def.source == data && h.def.Valid() && h.def.Text() == "struct"
                     && h.def.off + h.def.len < h.c.head
  {
    var fail := Header(false, EmptyStrView(), EmptyStrView(), EmptyStrView(), AtSection(data, p));
    var n1 := Next(data, AtSection(data, p));
    if n1.tok != TokPunct('(') then fail.(c := n1.c)
    else
      var n2 := Next(data, n1.c);
      if n2.tok != TokString then fail.(c := n2.c)
      else
        var n3 := Next(data, n2.c);
        if n3.tok != TokPunct(')') then fail.(c := n3.c)
        else
          var n4 := Next(data, n3.c);
          if n4.tok != TokIdentifier || !IsWord(n4.c.value, "struct") then fail.(c := n4.c)
          else
            var n5 := Next(data, n4.c);
            if n5.tok != TokIdentifier then fail.(c := n5.c)
            else
              var n6 := Next(data, n5.c);
              if n6.tok != TokPunct('{') then fail.(c := n6.c)
              else Header(true, n2.c.value.sv, n4.c.value.sv, n5.c.value.sv, n6.c)
  }

  /** Sections already parsed ahead of the rest. */
  function JoinBlocks(bs: seq<Block>, r: Parsed): Parsed {
    Parsed(r.ok, bs + r.blocks, r.c)
  }

  lemma JoinJoinBlocks(a: seq<Block>, b: seq<Block>, r: Parsed)
    ensures JoinBlocks(a, JoinBlocks(b, r)) == JoinBlocks(a + b, r)
  {
  }

  /** `parse`: every `SECTION ( "name" ) struct Name { ... }` of the input,
      found by `scan_until_section` and read in turn; the first error stops
      the parse, leaving the section under way (if any) with the keys read
      so far. */
  function Sections(data: seq<byte>, c: Cursor, isSource: bool): (r: Parsed)
    requires c.tail <= c.head <= |data|
    ensures r.ok ==> r.c.head == |data|
    decreases |data| - c.head, 1
  {
    match FindSection(data, c.head)
    case None => Parsed(true, [], Cursor(|data|, |data|, c.value))
    case Some(p) => SectionFrom(data, p, isSource)
  }

  /** `parse` from the `SECTION` that `scan_until_section` found at `p`:
      its header, then its body. */
  function SectionFrom(data: seq<byte>, p: nat, isSource: bool): (r: Parsed)
    requires SectionAt(data, p)
    ensures r.ok ==> r.c.head == |data|
    decreases |data| - p, 0
  {
    var h := SectionHeader(data, p);
    if !h.ok then Parsed(false, [], h.c) else SectionBody(data, h, isSource)
  }

  /** The rest of `parse` once a section header is read: the struct body up
      to its `}`, then the sections after it. */
  function SectionBody(data: seq<byte>, h: Header, isSource: bool): (r: Parsed)
    requires h.c.tail <= h.c.head <= |data|
    requires h.ok && h.name.source == data && h.name.Valid()
    requires h.structName.source == data && h.structName.Valid() && 0 < h.structName.len
    requires h.def.source == data && h.def.Valid() && h.def.Text() == "struct"
    requires h.def.off + h.def.len < h.c.head
    ensures r.ok ==> r.c.head == |data|
    decreases |data| - h.c.head, 2
  {
    var body := StructBody(data, h.c);
    if body.tok != TokPunct('}') then
      Parsed(false, [Block(h.name, h.structName, EmptyStrView(), body.fields)], body.c)
    else
      var block := CompleteBlock(data, h, body, isSource);
      var rest := Sections(data, body.c, isSource);
      Parsed(rest.ok, [block] + rest.blocks, rest.c)
  }

  /** `Sections` and `SectionBody` as the contracts of the methods of
      `Parser` state them, so that a caller sees one step of the recursion
      at a time. */
  function SectionsSpec(data: seq<byte>, c: Cursor, isSource: bool): (r: Parsed)
    requires c.tail <= c.head <= |data|
  {
    Sections(data, c, isSource)
  }

  function SectionBodySpec(data: seq<byte>, h: Header, isSource: bool): (r: Parsed)
    requires h.c.tail <= h.c.head <= |data|
    requires h.ok && h.name.source == data && h.name.Valid()
    requires h.structName.source == data && h.structName.Valid() && 0 < h.structName.len
    requires h.def.source == data && h.def.Valid() && h.def.Text() == "struct"
    requires h.def.off + h.def.len < h.c.head
  {
    SectionBody(data, h, isSource)
  }

  /** A successful parse leaves only well-formed sections: names that are
      views into the input, well-formed keys and, for a source file, the
      struct text from `struct` through `}`. */
  lemma {:induction false} SectionsOk(data: seq<byte>, c: Cursor, isSource: bool)
    requires c.tail <= c.head <= |data|
    ensures var r := Sections(data, c, isSource);
            r.ok ==> AllBlocksOk(data, r.blocks, isSource)
    decreases |data| - c.head, 1
  {
    match FindSection(data, c.head)
    case None =>
    case Some(p) => SectionFromOk(data, p, isSource);
  }

  lemma {:induction false} SectionFromOk(data: seq<byte>, p: nat, isSource: bool)
    requires SectionAt(data, p)
    ensures var r := SectionFrom(data, p, isSource);
            r.ok ==> AllBlocksOk(data, r.blocks, isSource)
    decreases |data| - p, 0
  {
    var h := SectionHeader(data, p);
    if h.ok {
      SectionBodyOk(data, h, isSource);
    }
  }

  lemma {:induction false} SectionBodyOk(data: seq<byte>, h: Header, isSource: bool)
    requires h.c.tail <= h.c.head <= |data|
    requires h.ok && h.name.source == data && h.name.Valid()
    requires h.structName.source == data && h.structName.Valid() && 0 < h.structName.len
    requires h.def.source == data && h.def.Valid() && h.def.Text() == "struct"
    requires h.def.off + h.def.len < h.c.head
    ensures var r := SectionBody(data, h, isSource);
            r.ok ==> AllBlocksOk(data, r.blocks, isSource)
    decreases |data| - h.c.head, 2
  {
    var body := StructBody(data, h.c);
    if body.tok == TokPunct('}') {
      StructBodyKeysOk(data, h.c);
      SectionsOk(data, body.c, isSource);
      PrependBlock(data, CompleteBlock(data, h, body, isSource), Sections(data, body.c, isSource).blocks, isSource);
    }
  }

  /** One pass through the loop of `parse`: with no `SECTION` left the
      parse succeeds at the end of the input; a failed section header ends
      it; after a header it goes on with the struct body. */
  lemma SectionsStep(data: seq<byte>, c: Cursor, isSource: bool)
    requires c.tail <= c.head <= |data|
    ensures SectionsSpec(data, c, isSource) ==
            match FindSectionSpec(data, c.head)
            case None => Parsed(true, [], Cursor(|data|, |data|, c.value))
            case Some(p) =>
              var h := SectionHeader(data, p);
              if h.ok then SectionBodySpec(data, h, isSource) else Parsed(false, [], h.c)
  {
    match FindSection(data, c.head)
    case None =>
    case Some(p) => assert SectionsSpec(data, c, isSource) == SectionFrom(data, p, isSource);
  }

  /** After its header, a section ends the parse unless its struct body
      ends on `}`; then the section is complete and `parse` goes on after
      it. */
  lemma BodyThenSections(data: seq<byte>, h: Header, isSource: bool)
    requires h.c.tail <= h.c.head <= |data|
    requires h.ok && h.name.source == data && h.name.Valid()
    requires h.structName.source == data && h.structName.Valid() && 0 < h.structName.len
    requires h.def.source == data && h.def.Valid() && h.def.Text() == "struct"
    requires h.def.off + h.def.len < h.c.head
    ensures var body := StructBodySpec(data, h.c);
            var closed := body.tok == TokPunct('}');
            var def := if closed && isSource then StrView(data, h.def.off, body.c.head - h.def.off) else EmptyStrView();
            var block := Block(h.name, h.structName, def, body.fields);
            SectionBodySpec(data, h, isSource) ==
              if closed then JoinBlocks([block], SectionsSpec(data, body.c, isSource)) else Parsed(false, [block], body.c)
  {
  }

  /** The section `parse` leaves once its closing `}` is read: for a source
      file, with the struct text from `struct` through `}`. */
  function CompleteBlock(data: seq<byte>, h: Header, body: Body, isSource: bool): (b: Block)
    requires h.ok && h.name.source == data && h.name.Valid()
    requires h.structName.source == data && h.structName.Valid() && 0 < h.structName.len
    requires h.def.source == data && h.def.Valid() && h.def.Text() == "struct"
    requires h.def.off + h.def.len < body.c.head <= |data|
    requires body.tok == TokPunct('}') && data[body.c.head - 1] == '}'
    ensures FieldsOk(data, body.fields) ==> BlockOk(data, b, isSource)
    ensures b.name == h.name && b.structName == h.structName && b.fields == body.fields
  {
    StructDefText(data, h.def, body.c.head);
    var def := if isSource then StrView(data, h.def.off, body.c.head - h.def.off) else EmptyStrView();
    Block(h.name, h.structName, def, body.fields)
  }

  /** The text captured for a source file starts with `struct` and ends
      with the byte before `head`. */
  lemma StructDefText(data: seq<byte>, def: StrView, head: nat)
    requires def.source == data && def.Valid() && def.Text() == "struct"
    requires def.off + def.len < head <= |data|
    ensures var v := StrView(data, def.off, head - def.off);
            v.Valid() && v.Text()[..6] == "struct" && v.Text()[v.len - 1] == data[head - 1]
  {
    var v := StrView(data, def.off, head - def.off);
    assert v.Text()[..6] == def.Text();
  }
}
