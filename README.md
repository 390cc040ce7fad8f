# c-ini generator front end in Dafny

c-ini reads C headers and sources in which structs are marked up as INI
sections:

    SECTION("name") struct Name { int x DEFAULT(3) CONSTRAIN(0, 9); ... };

From that markup it generates an INI parser and writer for each struct.
This project models the front end of that generator, c-ini/c-ini.c, and
proves properties of the model:

- **`Support`** holds the helpers the front end shares. These are the
  string views (`struct str_view`, `empty_str_view`), `cstr_equal`,
  `file_is_source_file` and the `<ctype.h>` classes of the C locale. Input
  bytes are a subset type of `char`, so keywords are written as string
  literals.
- **`Lexer`** is the token language of `scan_next` and the `SECTION`
  search of `scan_until_section`, written as pure functions of the input
  and a cursor. `Cursor` holds `tail`, `head` and the token value.
  - `Next` is one call of `scan_next`.
  - `Pass` is one pass of its loop.
  - `FindSection` is `scan_until_section`.

  Lemmas state what each kind of token looks like: comments, punctuation,
  numbers, strings, identifiers and skipped bytes. `Scan` and `FindSectionSpec` restate `Next`
  and `FindSection` behind a non-recursive layer, so that the loops of
  `Parser` can follow them one step at a time.
- **`Schema`** is the schema the parser builds: `enum c_data_type`,
  `struct value`, `struct attributes`, and the `Key`, `Section` and `Root`
  classes. The linked lists that `ll_append` extends become sequence
  fields. This module also holds `section_create`, `key_create` and the
  seeding of `attributes_set_default_for_type`.
- **`TypeRules`** holds the pure decisions of the parser:
  - the type spellings;
  - what `unsigned` does to a type;
  - what `DEFAULT` stores;
  - the two `CONSTRAIN` checks.
- **`Grammar`** describes each `parse*` routine as a function of the input
  and the cursor it starts from. Properties of the grammar are stated
  here: well-formed attributes, well-formed keys and sections, and the
  struct text of source files. Functions named `...Spec` and lemmas named
  `...Step` restate a recursive function one step at a time, so that the
  loops of `Parser` can follow it.
- **`Parser`** is `struct parser` as a class. Its methods advance
  `tail`, `head` and `value` in place and append keys and sections to the
  schema objects. Each routine is proved to do exactly what its function
  in `Lexer` or `Grammar` says, so every property proved there holds of
  the running parser.
- **`MStream`** is `struct mstream` as a class over a byte array. It has
  `mstream_grow`, `mstream_putc`, `mstream_write_int`, `mstream_cstr`,
  `mstream_str`, `mstream_write_float` and `mstream_fmt`. Each routine is
  proved to append exactly the bytes a specification function gives:
  - `Digits` and `DecimalString` for integers;
  - `Format` for the format subset.

  Lemmas connect the written numbers back to the lexer. `FormatSpec` restates `Format`
  in the same way for the loop of `mstream_fmt`.

The model follows c-ini/c-ini.c as it stands in this revision of the
repository. That revision does not have:

- hexadecimal literals;
- negative literals (a `-` starts an identifier);
- `STRING` and `STRINGLIST` attributes;
- string lists;
- bitfield sizes.

Unknown field types are recovered only through `IGNORE()`.

## Model

| member | source | states |
|---|---|---|
| Support.EmptyStrView | c-ini/c-ini.c:33-40 | The empty view is valid and has no text. |
| Support.CstrEqual | c-ini/c-ini.c:42-47 | The length test followed by the byte comparison holds exactly when the C string equals the view's text. |
| Support.EndsWith | c-ini/c-ini.c:686-689 | No ensures (a predicate): the `strcmp` of the name's last bytes with an extension. `EndsWithIsSuffix` states that it is the suffix relation. |
| Support.EndsWithIsSuffix | c-ini/c-ini.c:683-690 | Comparing the last bytes of the name with `ext` holds exactly when the name ends with `ext`. A shorter name never does. |
| Support.FileIsSourceFile | c-ini/c-ini.c:683-690 | A file is a source file exactly when its name ends with one of `.c`, `.cpp`, `.cxx` or `.cc`. |
| Support.DecimalValue | c-ini/c-ini.c:1018-1023 | No ensures: the value the digit loop accumulates, most significant digit first. `Parser.Parser.ScanDigits` and `MStream.WrittenNumberReadsBack` state its meaning. |
| Lexer.BlockCommentEnd | c-ini/c-ini.c:983-994 | Returns the position just past the first `*/` after the opener. When no `*/` exists, returns the end of the buffer. No `*/` lies before the returned position. |
| Lexer.LineCommentEnd | c-ini/c-ini.c:995-1006 | Returns the position just past the first newline, or the end of the buffer when there is none. No newline lies before it. |
| Lexer.DigitRunEnd | c-ini/c-ini.c:1019-1023 | Returns the end of the maximal run of decimal digits. |
| Lexer.IdentRunEnd | c-ini/c-ini.c:1063-1068 | Returns the end of the maximal run of `[A-Za-z0-9_-]`. |
| Lexer.StringEnd | c-ini/c-ini.c:1048-1050 | Returns the first `"` not preceded by a backslash, or the end of the buffer. |
| Lexer.FloatEnd | c-ini/c-ini.c:1025-1038 | The float literal ends after its fraction digits and an optional `f`, strictly after the `.`. |
| Lexer.AfterComments | c-ini/c-ini.c:983-1006 | The two comment checks at the top of the loop never move `head` back or past the end of the buffer. |
| Lexer.NumberAt | c-ini/c-ini.c:1016-1041 | A digit starts an integer or a float literal. The resulting token is consistent with the input and starts where the loop pass started. |
| Lexer.StringAt | c-ini/c-ini.c:1044-1055 | A quote starts either a string token or an error that reaches the end of the buffer. |
| Lexer.IdentifierAt | c-ini/c-ini.c:1058-1071 | An identifier is a non-empty view into the input that ends at `head`. |
| Lexer.TokenAt | c-ini/c-ini.c:1008-1071 | The token branches of `scan_next` never return END. An error they return reaches the end of the buffer. |
| Lexer.Next | c-ini/c-ini.c:978-1077 | `head` never moves back, and moves forward on every token except END. END and ERROR leave `head` at the end of the buffer. The token value fits the token. |
| Lexer.Pass | c-ini/c-ini.c:981-1074 | One pass of the loop has the same guarantees as `Next`, starting from `tail = head`. |
| Lexer.PunctuationIsOneByte | c-ini/c-ini.c:1008-1013 | Each of the ten punctuation bytes is its own token. It consumes one byte and leaves the value alone. |
| Lexer.DigitsAreNumbers | c-ini/c-ini.c:1016-1041 | A maximal digit run not followed by `.` is an integer whose value is the number the digits spell. Followed by `.`, it is a float that ends at `FloatEnd`. |
| Lexer.StringLiteralSpan | c-ini/c-ini.c:1044-1055 | The error case occurs exactly when no closing quote exists. Otherwise the value is the view strictly between the quotes, and every quote inside it is escaped. |
| Lexer.IdentifierIsMaximal | c-ini/c-ini.c:1058-1071 | An identifier is the maximal run of identifier bytes from its start byte. |
| Lexer.BlockCommentReachingEndIsError | c-ini/c-ini.c:983-994 | A block comment that reaches the end of the buffer is an error. This includes one whose `*/` is the last two bytes. |
| Lexer.LineCommentReachingEndIsError | c-ini/c-ini.c:995-1006 | A line comment that reaches the end of the buffer is an error. This includes one whose newline is the last byte. |
| Lexer.SkippedBytesAreIgnored | c-ini/c-ini.c:1073 | Scanning from the start of a run of non-token bytes gives the same result as scanning from its end, `tail` included. |
| Lexer.FindSection | c-ini/c-ini.c:958-976 | Returns the first position at or after `head` where `SECTION` starts, or none when there is no such position. |
| Schema.LimitsAreRepresentableRanges | c-ini/c-ini.c:1221-1235 | The limits seeded for each fixed-width type are exactly the two's complement range of its width and signedness. |
| Schema.Pow2Doubles | c-ini/c-ini.c:1221-1235 | `2^n = 2^m * 2^(n-m)`. This is the arithmetic the ranges rest on. |
| Schema.Limits | c-ini/c-ini.c:1221-1235 | Every integer-valued type's limits contain 0 and are non-empty. |
| Schema.DefaultAttributes | c-ini/c-ini.c:1185-1241 | No ensures: `attributes_set_default_for_type`, type by type. `DefaultAttributesWellFormed` and `LimitsAreRepresentableRanges` state what it seeds. |
| Schema.DefaultAttributesWellFormed | c-ini/c-ini.c:1185-1241 | The seeding of every known type is well formed. Integer-valued types get their full limits as bounds. String types get the empty string. |
| Schema.Key.constructor | c-ini/c-ini.c:1138-1144 | A new key has the given name and type and zeroed attributes. |
| Schema.Section.constructor | c-ini/c-ini.c:1146-1153 | A new section has no keys and an empty struct text. |
| Schema.Root.constructor | c-ini/c-ini.c:1155-1158 | A new root has no sections. |
| Schema.SectionCreate | c-ini/c-ini.c:1160-1171 | Creates a fresh section with no keys, appended after all existing sections. This is `ll_append` at the tail of the list. |
| Schema.KeyCreate | c-ini/c-ini.c:1173-1183 | Creates a fresh key with zeroed attributes, appended after the section's keys. Keys stay in declaration order. |
| TypeRules.KeywordType | c-ini/c-ini.c:1258-1281 | A recognised spelling names `bool`, `float` or a fixed-width integer. |
| TypeRules.KeywordTypeIsTableLookup | c-ini/c-ini.c:1258-1281 | The chain of `cstr_equal` tests agrees with the table of spellings on every word. |
| TypeRules.MakeUnsigned | c-ini/c-ini.c:1286-1298 | No ensures: what `unsigned` does to each type. `MakeUnsignedKeepsWidth` states it. |
| TypeRules.MakeUnsignedKeepsWidth | c-ini/c-ini.c:1286-1298 | `unsigned` is accepted exactly on the signed fixed-width types. It gives the unsigned type of the same width. |
| TypeRules.ApplyDefault | c-ini/c-ini.c:1337-1435 | No ensures: the two switches of `parse_attribute_default`. `DefaultRules` states what it accepts and stores. |
| TypeRules.DefaultRules | c-ini/c-ini.c:1329-1441 | DEFAULT accepts exactly a string for string types; 0, 1, `true` or `false` for bool; an integer within the limits for fixed-width types; a float or an integer for floats; nothing for bitfields and unknown types. Only the default changes, to the value given, and well-formed attributes stay well formed. |
| TypeRules.LaterDefaultOverwrites | c-ini/c-ini.c:1329-1441 | After one successful DEFAULT, a second one succeeds exactly when it would succeed alone, and leaves the same attributes. |
| TypeRules.ConstrainTypeOk | c-ini/c-ini.c:1443-1481 | No ensures: `enforce_constrain_type`. `ConstrainRules` states which token each type accepts. |
| TypeRules.ConstrainRangeOk | c-ini/c-ini.c:1483-1510 | No ensures: `enforce_constrain_range`. `ConstrainRules` states that it is the type's limits. |
| TypeRules.ConstrainBound | c-ini/c-ini.c:1520-1537 | No ensures: one bound of `CONSTRAIN`, both checks then the stored integer. `ConstrainRules` states when it is given. |
| TypeRules.ConstrainRules | c-ini/c-ini.c:1443-1510 | Only fixed-width and float fields take bounds: integers for fixed-width types, integers or floats for floats. An integer bound of a fixed-width type passes exactly when it lies within the type's limits. |
| Grammar.BasicDataType | c-ini/c-ini.c:1243-1327 | The cursor moves forward, and the result is consistent with the input. |
| Grammar.NamedType | c-ini/c-ini.c:1283-1307 | As above, for the part after a recognised type name. |
| Grammar.StructType | c-ini/c-ini.c:1309-1326 | As above, for the part after `struct`. |
| Grammar.BasicDataTypeKinds | c-ini/c-ini.c:1243-1327 | Never yields a fixed-size string or a bitfield. An unknown type is returned with the identifier token that names it. |
| Grammar.UnsignedResolution | c-ini/c-ini.c:1249-1298 | `unsigned` before a recognised name gives the unsigned type of the same width, or an error for a type that has none. |
| Grammar.CharStarIsDynamicString | c-ini/c-ini.c:1300-1304 | An 8-bit signed name followed by `*` is a dynamic string. |
| Grammar.StructStrNeedsStar | c-ini/c-ini.c:1309-1326 | `struct str *` is the custom string type. `struct str` without `*` is an error. Any other struct name is an unknown type. |
| Grammar.OtherSpellingIsUnknown | c-ini/c-ini.c:1249-1326 | A word after an optional `unsigned` that names no type and is not `struct` gives an unknown type, with that word as the current token. |
| Grammar.PlainNameIsItsType | c-ini/c-ini.c:1258-1307 | A recognised type name without `unsigned` is its own type, and parsing goes on from the next token, except for `char *`. |
| Grammar.AttributeDefault | c-ini/c-ini.c:1329-1441 | A DEFAULT that succeeds moves the cursor forward. |
| Grammar.DefaultOnFixedWidth | c-ini/c-ini.c:1329-1441 | On a fixed-width field, DEFAULT goes on exactly when `( n )` holds an integer within the type's limits. It then sets the default to `n`. |
| Grammar.AttributeConstrain | c-ini/c-ini.c:1512-1549 | A CONSTRAIN that succeeds moves the cursor forward. |
| Grammar.ConstrainSetsOrderedBounds | c-ini/c-ini.c:1512-1549 | CONSTRAIN leaves the default alone. When it succeeds, the field is fixed-width or a float, and the bounds are ordered integers (within the limits for fixed-width types). |
| Grammar.ConstrainRejectsReversedBounds | c-ini/c-ini.c:1540-1544 | A maximum below the minimum is an error. |
| Grammar.AttributeList | c-ini/c-ini.c:1551-1572 | The attribute list ends on the first token that is not an identifier. |
| Grammar.Attribute | c-ini/c-ini.c:1559-1570 | One attribute that succeeds moves the cursor forward. |
| Grammar.DefaultKeepsWellFormed | c-ini/c-ini.c:1329-1441 | DEFAULT keeps the bounds, and one that succeeds keeps the attributes well formed. |
| Grammar.ConstrainKeepsWellFormed | c-ini/c-ini.c:1512-1549 | A CONSTRAIN that succeeds keeps the attributes well formed. |
| Grammar.AttributeKeepsWellFormed | c-ini/c-ini.c:1559-1570 | Each attribute read without error keeps the attributes well formed. |
| Grammar.AttributeListKeepsWellFormed | c-ini/c-ini.c:1551-1572 | Any number of attributes read without error keeps the attributes well formed. |
| Grammar.AttributeListStep | c-ini/c-ini.c:1554-1571 | One pass of the attribute loop reads one attribute, then the rest of the list unless that attribute failed. |
| Grammar.DeclareKey | c-ini/c-ini.c:1603-1606 | Creating a key and reading its attributes moves the cursor forward. |
| Grammar.DeclareKeyWellFormed | c-ini/c-ini.c:1603-1606 | The seeding for the type, followed by attributes that read without error, leaves well-formed attributes. |
| Grammar.ArraySuffix | c-ini/c-ini.c:1587-1601 | A malformed `[n]` is an error. |
| Grammar.KnownDataType | c-ini/c-ini.c:1574-1607 | A declarator of known type that ends on punctuation has moved the cursor forward. |
| Grammar.KnownDataTypeShape | c-ini/c-ini.c:1574-1607 | Creates a key exactly when no error came before the attributes, named by the identifier the declarator starts on. The key's type becomes a fixed-size string exactly when `[n]` follows a `char` name. `[n]` after any other type is an error and creates no key. |
| Grammar.KnownDataTypeKeyOk | c-ini/c-ini.c:1574-1607 | A key read without error is well formed. |
| Grammar.UnknownDataType | c-ini/c-ini.c:1609-1642 | A field of unknown type ends on `;` or `,` only when `IGNORE()` came before that token. Otherwise it is an error. |
| Grammar.UnknownDataTypeStep | c-ini/c-ini.c:1615-1636 | One pass of the recovery loop. |
| Grammar.SkipToActed | c-ini/c-ini.c:1615-1636 | Stops at the first `;`, `,`, `IGNORE`, end or error at or after the cursor. |
| Grammar.SkippedTokensDoNotMatter | c-ini/c-ini.c:1615-1636 | Tokens other than `;`, `,`, `IGNORE`, the end and an error do not change the outcome of the recovery loop. |
| Grammar.IgnoreThenSeparatorIsAccepted | c-ini/c-ini.c:1617-1632 | `IGNORE ( )` directly followed by `;` or `,` is accepted, and parsing goes on with that separator. |
| Grammar.IgnoreBeforeSeparatorIsAccepted | c-ini/c-ini.c:1609-1642 | A field of unknown type whose first `;`, `,`, `IGNORE`, end or error is an `IGNORE ( )` followed by `;` or `,` is accepted at that separator. A `;`, `,`, end or error met first is an error. |
| Grammar.StructBody | c-ini/c-ini.c:1644-1672 | A struct body ends on the first token that is not an identifier. |
| Grammar.Declaration | c-ini/c-ini.c:1651-1671 | As above, for one declaration. |
| Grammar.Declarator | c-ini/c-ini.c:1658-1662 | A declarator that ends on `;` or `,` has moved the cursor forward. |
| Grammar.DeclaratorKeyOk | c-ini/c-ini.c:1658-1662 | Creates a key exactly when the type is known and the declarator reads without error. That key has the declared type (or is a fixed-size string) and is well formed. |
| Grammar.ListItem | c-ini/c-ini.c:1658-1670 | One declarator ends in `,` (the list goes on), `;` or an error. |
| Grammar.FieldList | c-ini/c-ini.c:1658-1670 | The declarator list ends on a token that is not an identifier. |
| Grammar.DeclarationStep | c-ini/c-ini.c:1654-1656 | A declaration is its type followed by its declarators, unless the type failed or the input ended. |
| Grammar.FieldListStep | c-ini/c-ini.c:1658-1670 | One step of the declarator list, with earlier keys kept ahead. |
| Grammar.FieldListUnfold | c-ini/c-ini.c:1658-1670 | The declarator list is one item followed by the rest. |
| Grammar.StructBodyKeysOk | c-ini/c-ini.c:1644-1672 | Every key of a struct body that ends without error is well formed. |
| Grammar.DeclarationKeysOk | c-ini/c-ini.c:1651-1671 | As above, for one declaration. |
| Grammar.FieldListKeysOk | c-ini/c-ini.c:1658-1670 | As above, for a declarator list. |
| Grammar.ListItemKeysOk | c-ini/c-ini.c:1658-1670 | As above, for one item. |
| Grammar.FirstFieldType | c-ini/c-ini.c:1658-1660 | The first key of a list has the list's type, or is a fixed-size string when that type is `char`. |
| Grammar.ListRun | c-ini/c-ini.c:1658-1670 | One declaration's declarator list ends on `;` or an error, with the cursor moved forward. |
| Grammar.ListRunUnfold | c-ini/c-ini.c:1658-1670 | A declarator list is one item followed by the rest of the list when the item ends in `,`. |
| Grammar.FieldListSplits | c-ini/c-ini.c:1644-1670 | The keys of a declarator list come first, then those of the struct body after its `;`. |
| Grammar.ListItemSameType | c-ini/c-ini.c:1658-1662 | The key of one declarator has the list's type, or is a fixed-size string. |
| Grammar.ListRunSameType | c-ini/c-ini.c:1658-1670 | Every key of a declarator list has the list's type, or is a fixed-size string when that type is `char`. |
| Grammar.DeclarationKeysShareType | c-ini/c-ini.c:1651-1671 | In a declaration such as `int a, b;`, every name chained by `,` takes the type written before the first name. The declaration's keys come before those of the declarations after its `;`. |
| Grammar.AtSection | c-ini/c-ini.c:962-969 | The cursor left on a found `SECTION` holds that word as an identifier. |
| Grammar.SectionHeader | c-ini/c-ini.c:1689-1709 | A header that reads without error yields views into the input: the name, the struct name, and `struct` where the struct text starts. |
| Grammar.Sections | c-ini/c-ini.c:1674-1729 | A successful parse reaches the end of the input. |
| Grammar.SectionFrom | c-ini/c-ini.c:1686-1724 | As above, from a found `SECTION`. |
| Grammar.SectionBody | c-ini/c-ini.c:1710-1723 | As above, after a header. |
| Grammar.SectionsOk | c-ini/c-ini.c:1674-1729 | A successful parse leaves only well-formed sections: view names, well-formed keys, and for a source file the struct text from `struct` through `}`. |
| Grammar.SectionFromOk | c-ini/c-ini.c:1686-1724 | As above, from a found `SECTION`. |
| Grammar.SectionBodyOk | c-ini/c-ini.c:1710-1723 | As above, after a header. |
| Grammar.SectionsStep | c-ini/c-ini.c:1678-1709 | With no `SECTION` left, the parse succeeds. A failed header ends it. After a header, the parse goes on with the body. |
| Grammar.BodyThenSections | c-ini/c-ini.c:1710-1723 | A section completes only on `}`. For a source file its struct text runs from `struct` to `head`. |
| Grammar.CompleteBlock | c-ini/c-ini.c:1714-1721 | A closed section with well-formed keys is a well-formed section. |
| Grammar.StructDefText | c-ini/c-ini.c:1717-1721 | The captured struct text starts with `struct` and ends with the byte before `head`. |
| Parser.Parser.constructor | c-ini/c-ini.c:932-940 | Both cursors start at the beginning of the input. |
| Parser.Parser.ScanUntilSection | c-ini/c-ini.c:958-976 | Moves to the first `SECTION` at or after `head` as an identifier token, or returns END at the end of the buffer, as `FindSection` says. |
| Parser.Parser.ScanNext | c-ini/c-ini.c:978-1077 | The token, cursor and value are exactly what `Lexer.Next` gives. |
| Parser.Parser.SkipComments | c-ini/c-ini.c:983-1006 | Both comment checks leave `head` where `AfterComments` says. |
| Parser.Parser.SkipBlockComment | c-ini/c-ini.c:986-991 | The block comment loop stops at `BlockCommentEnd`. |
| Parser.Parser.SkipLineComment | c-ini/c-ini.c:998-1003 | The line comment loop stops at `LineCommentEnd`. |
| Parser.Parser.ScanToken | c-ini/c-ini.c:1008-1071 | The token branches behave as `TokenAt` says. With no token found, nothing changes. |
| Parser.Parser.ScanNumber | c-ini/c-ini.c:1016-1041 | Behaves as `NumberAt`. |
| Parser.Parser.ScanDigits | c-ini/c-ini.c:1018-1023 | The digit loop stops at `DigitRunEnd`, having accumulated the decimal value of the digits. |
| Parser.Parser.ScanFraction | c-ini/c-ini.c:1025-1038 | The fraction loop and the optional `f` stop at `FloatEnd`. |
| Parser.Parser.ScanString | c-ini/c-ini.c:1044-1055 | Behaves as `StringAt`. |
| Parser.Parser.ScanIdentifier | c-ini/c-ini.c:1058-1071 | Behaves as `IdentifierAt`. |
| Parser.Parser.ParseBasicDataType | c-ini/c-ini.c:1243-1327 | Behaves as `BasicDataType`. |
| Parser.Parser.ParseNamedType | c-ini/c-ini.c:1283-1307 | Behaves as `NamedType`. |
| Parser.Parser.ParseStructType | c-ini/c-ini.c:1309-1326 | Behaves as `StructType`. |
| Parser.Parser.ParseAttributeDefault | c-ini/c-ini.c:1329-1441 | Behaves as `AttributeDefault` on the key's attributes. |
| Parser.Parser.StoreDefault | c-ini/c-ini.c:1337-1435 | The two switches behave as `ApplyDefault`. |
| Parser.Parser.ParseAttributeConstrain | c-ini/c-ini.c:1512-1549 | Behaves as `AttributeConstrain` on the key's attributes. |
| Parser.Parser.ParseAttributes | c-ini/c-ini.c:1551-1572 | The loop behaves as `AttributeList`. |
| Parser.Parser.ParseAttribute | c-ini/c-ini.c:1559-1570 | One pass behaves as `Attribute`. |
| Parser.Parser.ParseStructKnownDataType | c-ini/c-ini.c:1574-1607 | Behaves as `KnownDataType`. The section's keys gain exactly the key it describes. |
| Parser.Parser.ParseArraySuffix | c-ini/c-ini.c:1587-1601 | Behaves as `ArraySuffix`. |
| Parser.Parser.DeclareKeyHere | c-ini/c-ini.c:1603-1606 | Behaves as `DeclareKey`. The key is appended to the section. |
| Parser.Parser.ParseStructUnknownDataType | c-ini/c-ini.c:1609-1642 | The recovery loop behaves as `UnknownDataType`. |
| Parser.Parser.ParseDeclarator | c-ini/c-ini.c:1658-1662 | Behaves as `Declarator`. |
| Parser.Parser.ParseStruct | c-ini/c-ini.c:1644-1672 | The loop behaves as `StructBody`. The section's keys gain exactly its fields, in order, and its struct text is untouched. |
| Parser.Parser.ParseDeclaration | c-ini/c-ini.c:1651-1671 | One pass of the loop of `parse_struct`. |
| Parser.Parser.ParseTypedDeclaration | c-ini/c-ini.c:1654-1671 | A declaration is its type followed by its declarators. |
| Parser.Parser.ParseFieldList | c-ini/c-ini.c:1658-1670 | The `next_in_list` loop ends on `;` or an error, as `FieldList` says. |
| Parser.Parser.ParseListItem | c-ini/c-ini.c:1658-1670 | One pass of `next_in_list` behaves as `ListItem`. |
| Parser.Parser.FindSectionHeader | c-ini/c-ini.c:1680-1709 | `scan_until_section` followed by the header, as `FindSection` and `SectionHeader` say. |
| Parser.Parser.ParseSectionHeader | c-ini/c-ini.c:1689-1709 | Behaves as `SectionHeader`. |
| Parser.Parser.Parse | c-ini/c-ini.c:1674-1729 | Behaves as `Sections`. The root gains exactly the sections parsed, in input order, after the sections it had. |
| Parser.Parser.ParseSection | c-ini/c-ini.c:1678-1724 | One pass of the loop of `parse`. |
| Parser.Parser.ParseSectionBody | c-ini/c-ini.c:1710-1723 | Behaves as `SectionBody`. |
| Parser.Parser.BuildSection | c-ini/c-ini.c:1710-1721 | A fresh section, appended to the root, holding the struct body's keys. For a source file closed by `}`, it also holds the struct text. |
| MStream.GrownCapacity | c-ini/c-ini.c:716-723 | No ensures: the doubling loop of `mstream_grow`. `GrowthIsBounded` states its bounds. |
| MStream.GrowthIsBounded | c-ini/c-ini.c:716-723 | Growth makes room for what is needed and never shrinks. When growth is needed, the new capacity is less than twice what is needed, or is the first 32 bytes. |
| MStream.Digits | c-ini/c-ini.c:748-760 | No ensures: the decimal digits of a magnitude. `DigitsSpellValue` states that they spell it. |
| MStream.DecimalString | c-ini/c-ini.c:733-761 | No ensures: the text `mstream_write_int` writes. `DecimalStringShape` states its shape. |
| MStream.DigitsSpellValue | c-ini/c-ini.c:748-760 | The digits written spell the number back in decimal. The first digit is `0` only for zero. There are at most `k` digits below `10^k`. |
| MStream.DecimalStringShape | c-ini/c-ini.c:733-761 | For a C `int`, at most 11 bytes are written. A leading `-` appears exactly for negatives, followed by digits without a leading zero that spell the magnitude. Zero is written as `0`. |
| MStream.DigitRunEndsAt | c-ini/c-ini.c:1019-1023 | A run of digits followed by a non-digit ends there. |
| MStream.WrittenNumberReadsBack | c-ini/c-ini.c:733-761 | A non-negative number written by `mstream_write_int` is read back by `scan_next` (c-ini/c-ini.c:1016-1041) as an integer literal of the same value. |
| MStream.WrittenDigitsRun | c-ini/c-ini.c:748-760 | The digits written form the lexer's digit run, and that run spells the number. |
| MStream.NegativeNumberReadsAsIdentifier | c-ini/c-ini.c:738-742 | A negative number written by `mstream_write_int` is not a number to `scan_next` (c-ini/c-ini.c:1058-1071). Its `-` starts an identifier. |
| MStream.PlainFormatIsCopied | c-ini/c-ini.c:797-821 | A format without `%` is valid and is copied unchanged. |
| MStream.MatchesConcat | c-ini/c-ini.c:797-821 | A format that uses all of its arguments can be followed by any valid format and that format's arguments. |
| MStream.Format | c-ini/c-ini.c:797-821 | No ensures: the bytes `mstream_fmt` writes for a format and its arguments. `PlainFormatIsCopied`, `FormatConcat` and `FirstPiece` state them. |
| MStream.FormatConcat | c-ini/c-ini.c:797-821 | Formatting distributes over concatenation of formats and their arguments. |
| MStream.FirstPiece | c-ini/c-ini.c:804-818 | One pass over the format takes two bytes for a directive and one byte otherwise, and one argument exactly for `%c %s %i %d %f %S`. |
| MStream.FormatUnfold | c-ini/c-ini.c:802-819 | A format is its first piece followed by the rest, which consumes the remaining arguments. |
| MStream.FormatStep | c-ini/c-ini.c:802-819 | The same, at byte `i` and argument `k` of the loop. A `%` before any other byte writes that byte. |
| MStream.Stream.constructor | c-ini/c-ini.c:701-708 | The stream starts with no capacity and nothing written. |
| MStream.Stream.Grow | c-ini/c-ini.c:716-723 | Keeps the bytes written and reaches the capacity `GrownCapacity` gives. |
| MStream.Stream.Put | c-ini/c-ini.c:773-774 | The written part gains exactly the bytes given. |
| MStream.Stream.Putc | c-ini/c-ini.c:726-730 | The written part gains exactly the byte given. |
| MStream.Stream.Cstr | c-ini/c-ini.c:769-775 | Given a C string (no NUL byte before its end), the written part gains exactly its bytes. |
| MStream.Stream.Str | c-ini/c-ini.c:778-783 | The written part gains exactly the view's text. |
| MStream.Stream.WriteFloat | c-ini/c-ini.c:763-767 | The written part gains exactly the printed text of the double. |
| MStream.Stream.WriteInt | c-ini/c-ini.c:733-761 | The written part gains exactly the decimal spelling of the integer. |
| MStream.Stream.WriteDigits | c-ini/c-ini.c:748-760 | The two digit loops append exactly the digits of a positive magnitude. |
| MStream.Stream.CountDigit | c-ini/c-ini.c:752-757 | The counting loop leaves the digit of `value` at `digit` in the byte, and the remainder below `digit`. |
| MStream.CountBelowTen | c-ini/c-ini.c:753-757 | The count stays a decimal digit. |
| MStream.DigitsGrow | c-ini/c-ini.c:752-758 | Writing the next digit extends the leading digits written. |
| MStream.NextDigit | c-ini/c-ini.c:753-759 | The magnitude equals the digits above `digit` plus what is left. |
| MStream.LastDigit | c-ini/c-ini.c:750-760 | When `digit` reaches zero, the digits written spell the whole magnitude. |
| MStream.Stream.WriteDirective | c-ini/c-ini.c:807-816 | A directive appends exactly its argument's rendering. |
| MStream.Stream.FmtPass | c-ini/c-ini.c:804-818 | One loop pass appends exactly the first piece. |
| MStream.Stream.Fmt | c-ini/c-ini.c:797-821 | Given a format with no NUL byte and arguments it matches, the written part gains exactly `Format(fmt, args)`: the format with every directive replaced by its argument. |

## Left out

- File and process I/O are not part of this model: `mfile` (reading the
  input), command-line handling and output files.
- The code emitter (the `gen_*` routines) is not part of this model.
- Diagnostics are left out. `parser_error` prints a message, a line,
  a column and an excerpt, then returns the error token; the model
  returns the error token only.
  - The parser's file name serves diagnostics only and is left out.
  - The unknown-type recovery reports its error from a saved copy of the
    parser. That copy affects only the diagnostic position, so the model
    does not keep it.
- Floating point is left out. A float literal's value is the marker
  `LexFloat`, a float default is the marker `VFloat`, and the
  `%.9g` text of `mstream_write_float` is a parameter (see
  `MStream.Stream.WriteFloat`).
- `ll_remove` is left out. Its only caller is `IGNORE` after a field of
  known type. There it is handed the address of the local `key` of
  `parse_struct_known_data_type` (c-ini/c-ini.c:1606), so it overwrites
  that local with the key's `next`, which is null. The key stays in the
  section's list. The attribute loop then runs again on the same `IGNORE`
  and dereferences the null key. The model reads any word other than
  `DEFAULT` or `CONSTRAIN` there as an error (`Grammar.Attribute`).
- Grammar.AttributeConstrain: a float literal as a bound of a float field
  is refused. The source stores the double's bits in the integer member
  of the bound and compares them as integers; the model does not
  reinterpret floating point bits.
- Schema.DefaultAttributesWellFormed: for a float field, the source sets
  the float member of min and max to `-DBL_MAX` and `DBL_MAX` under the
  integer tag that `memset` left. The model marks both bounds as `VFloat`.
- Lexer.NumberAt: the lexer accumulates an integer literal's value in an
  `int64_t`, which overflows for literals above `2^63 - 1`. The model's
  value is unbounded.
- Lexer.Next: the source's two-byte comment tests and the seven-byte
  `SECTION` comparison can read past the end of their input. The model
  treats a byte past the end as matching nothing.
- Support.FileIsSourceFile: for a name shorter than an extension, the
  source compares from before the start of the name. The model says such
  a name does not end with that extension.
- MStream.Stream.Grow: `realloc` is assumed to succeed. The `int`
  capacity and write position are modelled unbounded, so their overflow on
  outputs of 2 GiB and more is not captured.
- MStream.Stream.Fmt: the model requires that the format not end in a
  lone `%`, because the source would then read past the terminator. It
  also requires every argument to have the type its directive reads.
  `%c` takes a byte, since the source truncates its `int` argument to
  `char`.
- MStream.Stream.Cstr: the C string is given as the bytes before its
  terminator.
- Parser.Parser.constructor: the source leaves the token value
  uninitialised. The model sets it to `LexInt(0)`, which is never read
  before a token sets it.
- Parser.Parser.Parse returns a boolean for the source's `0` and `-1`.
  `scan_until_section` returns only an identifier or END, so the error
  and "unexpected token" branches of `parse` are not modelled.
- Releasing memory (freeing the schema and the stream) is not modelled.
