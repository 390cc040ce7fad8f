/** The in-memory schema the parser builds (c-ini/c-ini.c:1079-1241): data
    types, attribute values, keys, sections and the root, the list appends
    `section_create` and `key_create`, and the per-type seeding of
    `attributes_set_default_for_type`. The source's singly linked lists,
    extended by `ll_append` at their tail, are sequence fields here. */
module Schema {
  import opened Support

  /** `enum c_data_type`. */
  datatype DataType =
    | Unknown
    | StrFixed
    | StrDynamic
    | StrCustom
    | Bool
    | IBitfield
    | UBitfield
    | I8
    | U8
    | I16
    | U16
    | I32
    | U32
    | Float

  predicate IsStringType(t: DataType) {
    t.StrFixed? || t.StrDynamic? || t.StrCustom?
  }

  /** The types whose values are stored as the 8, 16 or 32-bit integers of
      `<stdint.h>`. */
  predicate IsFixedWidth(t: DataType) {
    t.I8? || t.U8? || t.I16? || t.U16? || t.I32? || t.U32?
  }

  /** The types whose default, minimum and maximum are integers. */
  predicate IsIntegerValued(t: DataType) {
    t.Bool? || t.IBitfield? || t.UBitfield? || IsFixedWidth(t)
  }

  /** `struct value`: its tag and the member of the union the tag selects.
      Float values are not modelled; `VFloat` only says a float is there. */
  datatype Value = VInteger(i: int) | VFloat | VString(sv: StrView)

  /** `struct attributes`. */
  datatype Attributes = Attributes(defaultValue: Value, min: Value, max: Value)

  /** What `memset(&key->attr, 0, ...)` leaves: three integer zeros (the
      integer tag is 0). */
  function ZeroAttributes(): Attributes {
    Attributes(VInteger(0), VInteger(0), VInteger(0))
  }

  const Int32Min: int := -0x8000_0000
  const Int32Max: int := 0x7fff_ffff

  /** The minimum and maximum seeded for an integer-valued type, from the
      `<stdint.h>` limits the source names. */
  function Limits(t: DataType): (bounds: (int, int))
    requires IsIntegerValued(t)
    ensures bounds.0 <= 0 < bounds.1
  {
    match t
    case Bool => (0, 1)
    case IBitfield => (Int32Min, Int32Max)
    case UBitfield => (Int32Min, Int32Max)
    case I8 => (-128, 127)
    case U8 => (0, 255)
    case I16 => (-32768, 32767)
    case U16 => (0, 65535)
    case I32 => (Int32Min, Int32Max)
    case U32 => (0, 4294967295)
  }

  predicate InLimits(t: DataType, v: int)
    requires IsIntegerValued(t)
  {
    Limits(t).0 <= v <= Limits(t).1
  }

  // An independent account of the same limits: two's complement ranges.

  function Pow2(n: nat): (p: nat)
    ensures p >= 1
  {
    if n == 0 then 1 else 2 * Pow2(n - 1)
  }

  function BitWidth(t: DataType): (w: nat)
    requires IsFixedWidth(t)
    ensures w >= 8
  {
    if t.I8? || t.U8? then 8 else if t.I16? || t.U16? then 16 else 32
  }

  predicate IsSigned(t: DataType) {
    t.I8? || t.I16? || t.I32?
  }

  /** A w-bit integer holds [-2^(w-1), 2^(w-1)-1] when signed and
      [0, 2^w-1] when unsigned. */
  function RepresentableRange(t: DataType): (int, int)
    requires IsFixedWidth(t)
  {
    var w := BitWidth(t);
    var half: int := Pow2(w - 1);
    var full: int := Pow2(w);
    if IsSigned(t) then (-half, half - 1) else (0, full - 1)
  }

  lemma {:induction false} Pow2Doubles(n: nat, m: nat)
    requires m <= n
    ensures Pow2(n) == Pow2(m) * Pow2(n - m)
    decreases n
  {
    if m < n {
      Pow2Doubles(n - 1, m);
    }
  }

  lemma Pow2Values()
    ensures Pow2(7) == 128 && Pow2(8) == 256
    ensures Pow2(15) == 32768 && Pow2(16) == 65536
    ensures Pow2(31) == 2147483648 && Pow2(32) == 4294967296
  {
    assert Pow2(8) == 256;
    Pow2Doubles(16, 8);
    Pow2Doubles(32, 16);
    Pow2Doubles(15, 7);
    Pow2Doubles(31, 15);
  }

  /** The seeded limits of every fixed-width type are exactly the values its
      storage type can represent. */
  lemma LimitsAreRepresentableRanges(t: DataType)
    requires IsFixedWidth(t)
    ensures Limits(t) == RepresentableRange(t)
  {
    Pow2Values();
  }

  /** The invariant every key's attributes keep from creation on: a string
      type's default is a string; an integer-valued type's default, minimum
      and maximum are integers inside the type's limits, with the minimum
      not above the maximum; a float's default is a float and integer
      bounds, when set, are ordered. An unknown type never gets a key. */
  predicate AttrsWellFormed(t: DataType, a: Attributes) {
    match t
    case Unknown => false
    case StrFixed => a.defaultValue.VString? && a.defaultValue.sv.Valid()
    case StrDynamic => a.defaultValue.VString? && a.defaultValue.sv.Valid()
    case StrCustom => a.defaultValue.VString? && a.defaultValue.sv.Valid()
    case Float =>
      a.defaultValue.VFloat? &&
      (a.min.VInteger? && a.max.VInteger? ==> a.min.i <= a.max.i)
    case _ =>
      && a.defaultValue.VInteger? && a.min.VInteger? && a.max.VInteger?
      && Limits(t).0 <= a.min.i <= a.max.i <= Limits(t).1
      && InLimits(t, a.defaultValue.i)
  }

  /** `attributes_set_default_for_type`, applied to zeroed attributes: the
      empty string for string types; zero and the type's full limits for
      integer-valued types; float markers for floats; nothing for an unknown
      type. */
  function DefaultAttributes(t: DataType): (a: Attributes) {
    match t
    case Unknown => ZeroAttributes()
    case StrFixed => ZeroAttributes().(defaultValue := VString(EmptyStrView()))
    case StrDynamic => ZeroAttributes().(defaultValue := VString(EmptyStrView()))
    case StrCustom => ZeroAttributes().(defaultValue := VString(EmptyStrView()))
    case Float => Attributes(VFloat, VFloat, VFloat)
    case _ => Attributes(VInteger(0), VInteger(Limits(t).0), VInteger(Limits(t).1))
  }

  /** The seeding of every known type is well formed; integer-valued types
      get their full limits as bounds and string types the empty string. */
  lemma DefaultAttributesWellFormed(t: DataType)
    ensures var a := DefaultAttributes(t);
            && (t != Unknown ==> AttrsWellFormed(t, a))
            && (IsIntegerValued(t) ==> a.min == VInteger(Limits(t).0) && a.max == VInteger(Limits(t).1))
            && (IsStringType(t) ==> a.defaultValue.VString? && a.defaultValue.sv.Text() == [])
  {
  }

  /** `struct key`: one field of a section. */
  class Key {
    const name: StrView
    const ctype: DataType
    var attr: Attributes

    constructor (name: StrView, ctype: DataType)
      ensures this.name == name && this.ctype == ctype && attr == ZeroAttributes()
    {
      this.name := name;
      this.ctype := ctype;
      attr := ZeroAttributes();
    }
  }

  /** `struct section`: one `SECTION("name") struct Name { ... }` block. */
  class Section {
    const name: StrView
    const structName: StrView
    var structDef: StrView
    var keys: seq<Key>

    constructor (name: StrView, structName: StrView)
      ensures this.name == name && this.structName == structName
      ensures structDef == EmptyStrView() && keys == []
    {
      this.name := name;
      this.structName := structName;
      structDef := EmptyStrView();
      keys := [];
    }
  }

  /** `struct root`: every section of every input, in input order. */
  class Root {
    var sections: seq<Section>

    constructor ()
      ensures sections == []
    {
      sections := [];
    }
  }

  /** `section_create`: a new section with no keys and no struct text,
      appended after every existing section. */
  method SectionCreate(root: Root, name: StrView, structName: StrView) returns (section: Section)
    modifies root
    ensures fresh(section)
    ensures root.sections == old(root.sections) + [section]
    ensures section.name == name && section.structName == structName
    ensures section.structDef == EmptyStrView() && section.keys == []
  {
    section := new Section(name, structName);
    root.sections := root.sections + [section];
  }

  /** `key_create`: a new key with zeroed attributes, appended after the
      section's existing keys, so that keys keep declaration order. */
  method KeyCreate(section: Section, name: StrView, t: DataType) returns (key: Key)
    modifies section
    ensures fresh(key)
    ensures section.keys == old(section.keys) + [key]
    ensures section.structDef == old(section.structDef)
    ensures key.name == name && key.ctype == t && key.attr == ZeroAttributes()
  {
    key := new Key(name, t);
    section.keys := section.keys + [key];
  }
}
