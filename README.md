# Binary INF decoder model

A Dafny model of the decoder for decompressed binary INF buffers in
`decompress_inf.py`. It covers:

- the version table of compressed-file tags (`MAGICS`, `get_version`);
- the text-file heuristic (`is_text_inf`);
- the string sampling of `analyze_binary_inf`;
- the class `BinaryInfParser`, which turns a buffer into indented text.

A buffer starts with a 16-byte header. Its first little-endian word is the
offset of the string tables at the end of the buffer. The tables hold a counted
run of NUL-terminated UTF-8 strings, then an optional counted run of UTF-16LE
strings, each stored as a char count and two bytes per char. From offset 16 a
recursive structure follows:

- The root object: a property count, a child-section count, the properties,
  then the sections.
- A section: a name index and a second word. A second word of 0 makes a
  container, with an object count and that many child objects. Any other value
  makes an inline block, and the word is its property count.
- A child object: a class index, the two counts, the properties, then the
  sections.
- A property: a name index, a count byte, and that many typed values. The value
  types are 0 string index, 1 double, 2 wide-string index and 3 blob.

The model is split the way the program works:

- `Bytes`: bytes, little-endian fields (`U32At`, `LE`) and `FindNul`
  (`bytes.find(b'\x00', start)`).
- `Classify`: `MAGICS`, `get_version` and `is_text_inf` as functions.
- `StringTable`: `_load_string_tables` as the specification functions
  `ReadStrings`, `ReadWStrings` and `LoadTables`. They have imperative
  counterparts (`LoadStringTables`, `ReadStringBlock`, `ReadWideBlock`) with the
  source's loops, early exits and local cursor. `analyze_binary_inf` is there
  too.
- `InfTree`: the tree a buffer stores, and a reference encoder that lays a tree
  out in the byte format.
- `InfDecode`: the structure the recursive descent reads, as total functions
  with the same reads, the same order and the same failures. Each failure comes
  with the cursor position `parse` reports it at. Lemmas prove three things:
  - the decoder reads back what the encoder writes;
  - every successful decode yields a storable tree;
  - every error is explained by the bytes at its position.
- `InfRender`: the text produced for a tree. This covers the lookups `get_str`
  and `get_wstr`, property lines, `[Class]`/`{`/`}` blocks indented with tabs,
  and the ` : ` split of inline section names.
- `InfParser`: the class `BinaryInfParser` itself. It has an immutable buffer,
  the loaded tables and a mutable cursor `pos`. `U8`, `U32`, `F64` and the
  `Parse...` methods move the cursor and build line lists in `for` loops, as
  the source does. Each method's contract ties its result to the decoder and
  the renderer: on success the lines are the rendering of what the decoder
  reads, and `pos` is where the decoder stops. On failure, `pos` is where the
  error was raised.

Some library routines are passed in as parameters through a `Codecs` value:
UTF-8 decoding (replacing and strict), UTF-16LE decoding and the formatting of
a finite double. Every statement holds for any such routines.

Two failure cases of the code are easy to miss:

- Besides the offset check, construction also raises when the buffer has fewer
  than 4 bytes, and when the offset leaves fewer than 4 bytes for the string
  count. Both come from `struct.unpack` on a short slice
  (`StringTable.LoadFailsExactly`).
- `fmt_double` evaluates `int(v)`, which raises for a NaN or an infinity. Such a
  double is a parse error in the model (`NonFiniteDouble`), reported 8 bytes
  after the payload starts, because `f64` has already moved the cursor.

## Model

| member | source | states |
|---|---|---|
| Classify.GetVersion | decompress_inf.py:72-74 | a recognised tag is 4 bytes, `AD - v`, `A5`, `FF`, `FF` for a version v below 4 |
| Classify.MagicFor | decompress_inf.py:65-70 | the tag of version v (0-3) is the little-endian word 0xFFFFA5AD - v |
| Classify.VersionOfMagic | decompress_inf.py:65-75 | each version 0-3 has a tag, and `get_version` maps that tag back to the version |
| Classify.MagicOfVersion | decompress_inf.py:65-75 | any tag `get_version` recognises is the tag of a version below 4; no other byte string is recognised |
| Classify.IsTextInf | decompress_inf.py:306-336 | a buffer is only called text when it has at least 20 bytes, does not look decompressed (offset in [16, len) and bytes 4-7 zero), does not start with a compressed tag, and its first 500 bytes decode as strict UTF-8 |
| Classify.TextDecidedByContent | decompress_inf.py:323-336 | once the three binary checks pass and the prefix decodes, the answer is true exactly when the text has `[`, `]` and `{`, or its stripped form starts with `[`, `;` or `#` |
| Bytes.U32AtValue | decompress_inf.py:130-133 | the u32 field at p is the little-endian value of `data[p..p+4]` |
| Bytes.LEValueOfLE | decompress_inf.py:130-133 | a field written little-endian at width k reads back as the same number |
| Bytes.FindNulFirst | decompress_inf.py:100 | `find` returns the first NUL at or after the start; with no result, no NUL lies at or after the start |
| StringTable.LoadTables | decompress_inf.py:87-123 | the tables load only from a buffer of at least 4 bytes whose offset is at least 16 and leaves 4 bytes for the string count |
| StringTable.LoadStringTables | decompress_inf.py:87-123 | the loader's result equals `LoadTables`: the three failures or the two tables |
| StringTable.ReadTables | decompress_inf.py:93-123 | the two loops produce the tables `TablesAt` describes |
| StringTable.ReadStringBlock | decompress_inf.py:96-104 | the string loop yields exactly `ReadStrings` and stops its cursor at the same place |
| StringTable.ReadWideBlock | decompress_inf.py:107-123 | the wide-string loop, with both early exits, yields exactly `ReadWStrings` |
| StringTable.LoadFailsExactly | decompress_inf.py:89-97 | construction fails exactly when the buffer is under 4 bytes, the offset is below 16, or fewer than 4 bytes follow it; an offset that is below 16 or at least `len(data)` gives the "Invalid string table offset" error |
| StringTable.WideTableNeedsRoom | decompress_inf.py:107-109 | the wide table is read from just after the string block only when 8 bytes remain there; otherwise it is empty |
| StringTable.ReadStrings | decompress_inf.py:99-104 | at most `str_count` strings are read |
| StringTable.StringsCursorBounded | decompress_inf.py:99-104 | the string loop's cursor never moves back, and from inside the buffer it stays inside it |
| StringTable.StringsStopAtMissingNul | decompress_inf.py:100-102 | fewer strings than announced happens only when no NUL is left at the cursor where reading stopped |
| StringTable.StringsAreSegments | decompress_inf.py:99-104 | what the string loop consumed is a run of NUL-free segments, each followed by its NUL; string i is the decoding of segment i, and the cursor ends right after the last NUL |
| StringTable.StringsRoundTrip | decompress_inf.py:99-104 | a run of NUL-terminated, NUL-free segments reads back as their decodings, and the cursor stops right after it |
| StringTable.ReadWStrings | decompress_inf.py:111-123 | at most `wstr_count` wide strings are read |
| StringTable.WStringsStopAtEnd | decompress_inf.py:111-118 | fewer wide strings than announced happens only when the next char count, or the bytes it announces, would run past the end |
| StringTable.WStringsRoundTrip | decompress_inf.py:111-123 | a block of char-counted UTF-16 entries reads back as each entry's decoding, or `<wstring@offset>` where decoding fails |
| StringTable.Analysis | decompress_inf.py:338-369 | there is no result exactly under 16 bytes; a sample is taken only for an offset in [16, len-4), and holds at most min(count, 20) strings |
| StringTable.SampleStrings | decompress_inf.py:353-366 | the sampling loop, with its end-of-buffer and missing-NUL exits, yields exactly `ReadStrings` with the sample limit |
| StringTable.AnalyzeBinaryInf | decompress_inf.py:338-369 | the result equals `Analysis`: none under 16 bytes, else size, offset and, for an offset in [16, len-4), the count and up to 20 sample strings |
| StringTable.ReadStringsPrefix | decompress_inf.py:99-104 | reading at most m strings gives the first min(m, n) of what reading k >= m strings gives, where n is how many those k reads produced |
| StringTable.SampleIsPrefixOfTable | decompress_inf.py:349-367 | where both the analysis samples and the loader succeeds, the sample is the first min(count, 20) loaded strings, or all of them if fewer were loaded |
| InfDecode.U8 | decompress_inf.py:125-128 | succeeds exactly when a byte is left, and yields that byte; otherwise the error is at the cursor |
| InfDecode.U32 | decompress_inf.py:130-133 | succeeds exactly when 4 bytes are left, and yields their little-endian value below 2^32; otherwise the error is at the cursor |
| InfDecode.DecodeValue | decompress_inf.py:164-178 | a type byte above 3 is an error reported one past that byte; nothing left is an error at the cursor; every error is explained by the bytes; a success moves forward |
| InfDecode.DecodeValues | decompress_inf.py:163-178 | on success exactly `count` values are read and the cursor does not move back; errors are explained |
| InfDecode.DecodeProperty | decompress_inf.py:156-180 | on success at least the 5 header bytes are consumed; errors lie at or after the start and are explained |
| InfDecode.DecodeBody | decompress_inf.py:194-202 | on success the body has exactly the announced numbers of properties and sections |
| InfDecode.DecodeSection | decompress_inf.py:233-287 | on success the three header words were present and consumed; errors are explained |
| InfDecode.DecodeObject | decompress_inf.py:207-231 | on success the three header words were present and consumed; errors are explained |
| InfDecode.DecodeRoot | decompress_inf.py:182-205 | on success the two counts were present and consumed; errors are explained |
| InfDecode.SectionDiscriminator | decompress_inf.py:245-285 | a decoded section's name index is its first word; it is a container exactly when the second word is 0, with as many objects as the third word says; otherwise the second and third words count its properties and sections |
| InfDecode.PropertyFields | decompress_inf.py:158-163 | a decoded property's name index is the word at its start, and its value count is the byte after it |
| InfDecode.ValueDecoded | decompress_inf.py:164-176 | a decoded value is storable, and the cursor moved by 1 + 4 (string, wide), 1 + 8 (double) or 1 + 4 + length (blob) |
| InfDecode.PropertyDecoded | decompress_inf.py:156-180 | a decoded property is storable, and the cursor moved by 5 plus the sizes of its values |
| InfDecode.PropertiesDecoded | decompress_inf.py:195-197 | decoded properties are storable, and the cursor moved by the sum of their sizes |
| InfDecode.BodyDecoded | decompress_inf.py:194-202 | a decoded body is storable, and the cursor moved by the size of its encoding |
| InfDecode.SectionDecoded | decompress_inf.py:233-287 | a decoded section is storable, and the cursor moved by 12 plus its content's size |
| InfDecode.ObjectDecoded | decompress_inf.py:207-231 | a decoded child object is storable, and the cursor moved by 12 plus its body's size |
| InfDecode.RootDecoded | decompress_inf.py:182-205 | a decoded root is storable, and the cursor moved by 8 plus its body's size |
| InfDecode.ValuesStep | decompress_inf.py:163-178 | after i values, the next value read either extends the list or its error is the error of the whole loop |
| InfDecode.PropertiesStep | decompress_inf.py:195-197 | after i properties, the next property read either extends the list or its error is the error of the whole loop |
| InfDecode.SectionsStep | decompress_inf.py:200-202 | after i sections, the next section read either extends the list or its error is the error of the whole loop |
| InfDecode.ObjectsStep | decompress_inf.py:254-256 | after i objects, the next object read either extends the list or its error is the error of the whole loop |
| InfDecode.ValueRoundTrip | decompress_inf.py:164-176 | a storable value written by the encoder reads back as itself, and the cursor stops right after it |
| InfDecode.PropertyRoundTrip | decompress_inf.py:156-180 | a storable property written by the encoder reads back as itself, and the cursor stops right after it |
| InfDecode.SectionRoundTrip | decompress_inf.py:233-287 | a storable container or inline section reads back in the shape it was written, and the cursor stops right after it |
| InfDecode.ObjectRoundTrip | decompress_inf.py:207-231 | a storable child object reads back as itself, and the cursor stops right after it |
| InfDecode.RootRoundTrip | decompress_inf.py:182-205 | a storable root reads back whole, and the cursor stops right after it |
| InfRender.GetStr | decompress_inf.py:140-143 | `get_str(i)` is `strings[i]` for an index in range and otherwise a placeholder that reads back as i |
| InfRender.GetWStr | decompress_inf.py:145-148 | `get_wstr(i)` is `wstrings[i]` for an index in range and otherwise a placeholder that reads back as i |
| InfRender.PlaceholderRoundTrip | decompress_inf.py:140-148 | `<string_i>` and `<wstring_i>` name exactly i |
| InfRender.RenderValues | decompress_inf.py:163-178 | one rendered value per value, in order |
| InfRender.RenderProperty | decompress_inf.py:180 | a property line starts with the name and ` = `; with no values that is the whole line, with one value the rest is that value's text |
| InfRender.PropertyReadsBack | decompress_inf.py:180 | a property line splits at its first ` = ` into the name and, split at `, `, exactly the rendered values, one per value |
| InfRender.PropertyLines | decompress_inf.py:195-197 | line i is property i, one tab deeper than the block |
| InfRender.InlineHeader | decompress_inf.py:263-269 | a name with ` : ` gives the part before its first occurrence and `: ` plus the rest, which rejoin to the name; a name without it is used for both lines |
| InfRender.BlockFramed | decompress_inf.py:191-204 | a block is `[class]`, `{`, the property lines in order, then the section lines, then `}`; the first two lines and the last are at the block's indent, and every line between lies at least one level deeper |
| InfRender.RenderSectionsAppend | decompress_inf.py:200-202 | the section loop appends each section's lines after those of the sections before it |
| InfRender.RenderObjectsAppend | decompress_inf.py:254-256 | the object loop appends each object's lines after those of the objects before it |
| InfRender.SectionsIndented | decompress_inf.py:233-287 | every line of sections rendered at an indent lies at least that deep |
| InfParser.BinaryInfParser.Create | decompress_inf.py:80-85 | construction fails exactly as the loader does; otherwise a fresh parser holds the buffer, the loaded tables and cursor 0 |
| InfParser.BinaryInfParser.U8 | decompress_inf.py:125-128 | yields the byte at the cursor and moves it by 1; fails when no byte is left, without moving |
| InfParser.BinaryInfParser.U32 | decompress_inf.py:130-133 | yields the little-endian u32 at the cursor and moves it by 4; fails when 4 bytes are not left, without moving |
| InfParser.BinaryInfParser.F64 | decompress_inf.py:135-138 | yields the 8 bytes at the cursor and moves it by 8; fails when 8 bytes are not left, without moving |
| InfParser.BinaryInfParser.ParseValue | decompress_inf.py:164-178 | one pass of the value loop yields the rendering of the value the decoder reads and moves the cursor to where the decoder stops, or fails with the decoder's error at its position |
| InfParser.BinaryInfParser.ParseProperty | decompress_inf.py:156-180 | yields `name = v1, ...` for the property the decoder reads and moves the cursor past it, or fails with the decoder's error at its position |
| InfParser.BinaryInfParser.ParsePropertyLines | decompress_inf.py:195-197 | the property loop of a block yields the property lines, one tab deeper, of the properties the decoder reads |
| InfParser.BinaryInfParser.ParseSectionLines | decompress_inf.py:200-202 | the section loop of a block yields the rendering of the sections the decoder reads |
| InfParser.BinaryInfParser.ParseBlock | decompress_inf.py:191-204 | the header, property loop, section loop and closing brace yield the rendering of the body the decoder reads |
| InfParser.BinaryInfParser.ParseObjectLines | decompress_inf.py:254-256 | the object loop of a container yields the rendering of the objects the decoder reads, at the container's indent |
| InfParser.BinaryInfParser.ParseSection | decompress_inf.py:233-287 | yields the rendering of the container or inline section the decoder reads, or fails with its error at its position |
| InfParser.BinaryInfParser.ParseChildObject | decompress_inf.py:207-231 | yields the block of the child object the decoder reads, named by its class index, or fails with its error at its position |
| InfParser.BinaryInfParser.ParseRootObject | decompress_inf.py:182-205 | yields the root block named by string 0, or fails with the decoder's error at its position |
| InfParser.ParseText | decompress_inf.py:289-298 | `parse` succeeds exactly when the root decodes from offset 16; an error lies at or after offset 16 and is explained by the bytes there |
| InfParser.Converted | decompress_inf.py:301-304 | `binary_to_text` succeeds exactly when the tables load and the root decodes; a parse error lies at or after offset 16 and is explained by the bytes there |
| InfParser.BinaryInfParser.Parse | decompress_inf.py:289-298 | reading starts at offset 16; the result is the root's lines joined with newlines and the cursor ends where the root ends, or the error with the cursor where it was raised |
| InfParser.BinaryToText | decompress_inf.py:301-304 | the result is the table-load failure, the parse failure, or the text, as `Converted` describes |
| InfParser.ConvertEncoded | decompress_inf.py:289-304 | a buffer whose tables load, and whose root the encoder wrote at offset 16, converts to exactly that root's rendering |

## Left out

- zlib decompression and its fallbacks are not modelled. They are a foreign library call, and only decompressed buffers are modelled.
- File I/O, directory walking, argument parsing, printing and statistics (`decompress_inf`, `process_directory`, `main`) are I/O plumbing and are not modelled.
- IEEE-754 decoding and the text `fmt_double` gives a finite double are not modelled. A double is its 8 payload bytes, and the formatter is a `Codecs` parameter. Only the NaN/infinity test, which decides whether parsing raises, is modelled (`Foreign.NonFinite`).
- UTF-8 and UTF-16LE decoding are `Codecs` parameters, because they are library routines. The `<wstring@offset>` fallback is modelled. The `<binary@offset>` fallback of `analyze_binary_inf` is not: decoding with `errors='replace'` never raises, so that branch is dead.
- The exception message `parse` builds is not modelled. An error keeps the cursor position it reports and a cause (`InfDecode.ParseError`).
- Python's recursion limit on deeply nested sections is not modelled. The model recurses as deep as the data goes.
- After a blob skip carries the cursor past the end, the model only records that the next bounded read fails. Python's behaviour for slices past the end is not modelled.
- `InfParser.BinaryInfParser.F64` yields the 8 payload bytes rather than a float, because float decoding is left out.
- InfRender.PropertyReadsBack: its requires (no `=` in the name, no `,` in any value) is a simple sufficient condition, not the exact one. The rendered line escapes nothing, so a line fails to split back only when the name contains ` = ` or ends in ` =`, when a value contains `, `, or when it must tell no values from one empty value, which render alike.
- Three loop helpers factor the shared lines of `parse_root_object`, `parse_child_object` and `parse_section` into methods of their own: `ParseBlock`, `ParsePropertyLines` and `ParseSectionLines`. `ParseValue` is the body of the value loop. The statements and their order are the source's.
- `InfDecode.ValueDecoded` and the other `...Decoded` lemmas state the size of what was consumed, not its bytes, because a blob's contents are skipped unread.
