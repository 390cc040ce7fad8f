/** Byte buffers, string views and the small predicates the generator's
    front end shares: `struct str_view`, `cstr_equal`, `file_is_source_file`
    and the `<ctype.h>` character classes it relies on (C locale). */
module Support {

  /** One byte of an input buffer. Being a subset of `char`, byte strings can
      be written as string literals. */
  type byte = c: char | c as int < 256 witness '\0'

  datatype Option<+T> = None | Some(value: T)

  /** A view of `len` bytes starting at offset `off` of `source`. Views never
      own text: every name and literal of the schema is one of these. */
  datatype StrView = StrView(source: seq<byte>, off: int, len: int)
  {
    predicate Valid() {
      0 <= off && 0 <= len && off + len <= |source|
    }

    function Text(): (t: seq<byte>)
      requires Valid()
      ensures |t| == len
    {
      source[off..off + len]
    }
  }

  /** The view the source returns from `empty_str_view`: no text at all. */
  function EmptyStrView(): (v: StrView)
    ensures v.Valid() && v.Text() == []
  {
    StrView("", 0, 0)
  }

  /** `cstr_equal`: a C string (given here by the bytes before its
      terminator) equals the text of a view. The source first compares the
      lengths and then the bytes. */
  function CstrEqual(s: seq<byte>, v: StrView): (r: bool)
    requires v.Valid()
    ensures r <==> s == v.Text()
  {
    |s| == v.len && forall i | 0 <= i < |s| :: s[i] == v.source[v.off + i]
  }

  /** The file name extensions that make an input a source file rather than a
      header. */
  const SourceExtensions: seq<string> := [".c", ".cpp", ".cxx", ".cc"]

  /** `strcmp(&name[len - |ext|], ext) == 0`: the name ends with `ext`. A
      name shorter than `ext` never does (the source reads before the start
      of the string there). */
  predicate EndsWith(name: string, ext: string) {
    |ext| <= |name| && forall i | 0 <= i < |ext| :: name[|name| - |ext| + i] == ext[i]
  }

  lemma EndsWithIsSuffix(name: string, ext: string)
    ensures EndsWith(name, ext) <==> |ext| <= |name| && name[|name| - |ext|..] == ext
  {
    if |ext| <= |name| && name[|name| - |ext|..] == ext {
      forall i | 0 <= i < |ext| ensures name[|name| - |ext| + i] == ext[i] {
        assert name[|name| - |ext|..][i] == ext[i];
      }
    }
  }

  /** `file_is_source_file`: the file name ends with ".c", ".cpp", ".cxx" or
      ".cc". */
  function FileIsSourceFile(name: string): (r: bool)
    ensures r <==> exists ext | ext in SourceExtensions ::
                     |ext| <= |name| && name[|name| - |ext|..] == ext
  {
    EndsWithIsSuffix(name, ".c");
    EndsWithIsSuffix(name, ".cpp");
    EndsWithIsSuffix(name, ".cxx");
    EndsWithIsSuffix(name, ".cc");
    EndsWith(name, ".c") || EndsWith(name, ".cpp") || EndsWith(name, ".cxx") || EndsWith(name, ".cc")
  }

  // Character classes of <ctype.h> in the C locale; bytes above 127 belong
  // to none of them.

  predicate IsDigit(c: byte) { '0' <= c <= '9' }

  predicate IsAlpha(c: byte) { ('A' <= c <= 'Z') || ('a' <= c <= 'z') }

  predicate IsAlnum(c: byte) { IsAlpha(c) || IsDigit(c) }

  /** The value of a decimal digit. */
  function DigitValue(c: byte): (d: nat)
    requires IsDigit(c)
    ensures d < 10
  {
    c as int - '0' as int
  }

  /** The number a run of decimal digits denotes, read left to right as the
      lexer accumulates it. */
  function DecimalValue(s: seq<byte>): (n: nat)
    requires forall i | 0 <= i < |s| :: IsDigit(s[i])
  {
    if s == [] then 0 else DecimalValue(s[..|s| - 1]) * 10 + DigitValue(s[|s| - 1])
  }
}
