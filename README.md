# GFA record model (rs-gfa `src/gfa.rs`)

This project models, in Dafny, the typed in-memory representation of GFA
(Graphical Fragment Assembly) records in `src/gfa.rs`, and proves what that
code promises about it:

- **Orientation**: `Forward` / `Backward`. There is a strict parser that
  accepts exactly `"+"` or `"-"` and otherwise returns the source's error
  message. There is a one-character renderer, plus `is_reverse` and the
  default value `Forward`.
- **Optional fields**: a tag and one of eight typed values. Each renders as
  `tag:type:value`: `A`, `i`, `f`, `Z` and `J` for scalars, `H` for a byte
  array (one lowercase hex digit per element) and `B:I` / `B:f` for integer
  and float arrays (elements joined by single commas). The byte, integer and
  float array texts are built by loops in the source. Here they are built by
  methods with loop invariants, proved equal to specification functions.
- **Records**: header, segment, link, containment and path, plus the `Line`
  union over them, the parsing configuration and the `GFA` collection. The
  constructors that exist in the source (`Segment::new`, `Link::new`,
  `Path::new`, `GFAParsingConfig::none/all`, `GFA::new`) are functions whose
  contracts say which fields they set and that everything else is absent or
  empty.
- **Path construction**: each segment-list token is split at its last
  character into a segment name and an orientation, in token order. Overlaps
  are stored as given.

Files:

- `text.dfy` (module `Text`) holds what the renderer takes from the Rust
  standard library (`i64` `Display` and `char::from_digit` in radix 16) and
  the comma joining done by the array loops. Each has a partner that undoes it: decimal value, hex value
  and splitting at commas. Lemmas tie each pair together.
- `gfa.dfy` (module `Gfa`) holds the model of `src/gfa.rs` itself.

Rust's `i64`, `u32` and `usize` are newtypes with their exact ranges. An `f32`
is kept as its 32-bit pattern (`F32`). Rust's float formatting is passed in as
a parameter `floatText: F32 -> string`.

Aborts and absent pieces:

- `src/gfa.rs` has no optional-field decoder and no builder that collects
  lines into a `GFA`. `SplitAtCommas`, `DecimalValue` and `HexValue` exist
  only to state round-trip properties of the renderer.
- `Path::new` aborts on an empty token (`s.len() - 1`) and on a failed
  orientation parse (`unwrap`). So `NewPath` has a precondition that accepts
  exactly the tokens on which it does not abort.
- An element of 16 or more in a byte array makes `from_digit(..).unwrap()`
  abort. So rendering requires `Renderable`: every byte-array element is
  below 16.

## Model

| member | source | states |
|---|---|---|
| `Gfa.DefaultOrientation` | src/gfa.rs:103-108 | the default orientation is not reverse and is written `+`, i.e. Forward |
| `Gfa.IsReverse` | src/gfa.rs:122-129 | `is_reverse` holds exactly for the orientation written `-` (Backward) |
| `Gfa.OrientationText` | src/gfa.rs:131-139 | rendering an orientation gives exactly one character, `+` or `-` |
| `Gfa.ParseOrientation` | src/gfa.rs:110-120 | parsing succeeds iff the text is exactly `"+"` or `"-"`; on success the parsed orientation renders back to the same text; on failure the error is the source's message |
| `Gfa.OrientationRoundTrip` | src/gfa.rs:110-139 | parse(render(o)) == o, and parse(s) == o exactly when s is render(o) |
| `Gfa.OrientationRejects` | src/gfa.rs:113-119 | `""` and `"++"` are rejected with the parse error |
| `Gfa.NewOptionalField` | src/gfa.rs:24-31 | the new optional field holds the given tag and value unchanged |
| `Text.HexDigit` | src/gfa.rs:46 | `from_digit(v, 16)` for v < 16 is a lowercase hex digit whose value is v |
| `Text.IntToDecimal` | src/gfa.rs:56 | an integer's decimal text is well formed, starts with `-` iff the integer is negative, has no leading zero in its magnitude (the canonical `to_string` form), has no comma, and reads back as the integer |
| `Text.NatToDecimal` | src/gfa.rs:39 | a magnitude's digits are non-empty, have no leading zero and read back as the number |
| `Text.CommaJoinedSeparators` | src/gfa.rs:52-57 | joining n >= 1 comma-free parts puts exactly n - 1 commas in the text, and splitting at commas gives the parts back |
| `Text.CommaJoinedSnoc` | src/gfa.rs:53-56 | appending a part adds a comma only when a part is already there |
| `Gfa.HexText` | src/gfa.rs:43-49 | the byte-array text has one character per element, and character k is a lowercase hex digit whose value is element k |
| `Gfa.HexString` | src/gfa.rs:43-48 | the loop pushing one digit per element builds exactly the byte-array text |
| `Gfa.DecimalTexts` | src/gfa.rs:52-57 | one decimal text per element, each the canonical `to_string` text of its element, comma-free and reading back as the element |
| `Gfa.IntArrayString` | src/gfa.rs:50-58 | the loop that writes a comma before every element but the first builds exactly the comma-joined decimal texts |
| `Gfa.FloatArrayString` | src/gfa.rs:60-68 | the same loop over floats builds exactly the comma-joined float texts |
| `Gfa.FieldText` | src/gfa.rs:33-72 | every rendered field starts with `tag`, `:`, the value's type code (`A`/`i`/`f`/`Z`/`J`/`H`/`B`) and `:` |
| `Gfa.Display` | src/gfa.rs:33-72 | writing a field (tag and `:`, then each variant's arm, arrays built element by element) produces exactly its `tag:type:value` text |
| `Gfa.SignedIntText` | src/gfa.rs:39 | a signed-integer field is `tag:i:` and then canonical decimal text (a `-` only for negative values, no leading zero) that reads back as the value |
| `Gfa.ByteArrayText` | src/gfa.rs:43-49 | a byte-array field is `tag:H:` and then exactly one lowercase hex digit per element, in order, each with that element's value |
| `Gfa.IntArrayText` | src/gfa.rs:50-59 | an integer-array field is `tag:B:I` and then, for n >= 1 elements, a body with n - 1 commas whose comma-separated pieces are the canonical decimal texts of the elements, in order, each reading back as its element; an empty array gives `tag:B:I` alone |
| `Gfa.FloatArrayText` | src/gfa.rs:60-69 | a float-array field is `tag:B:f` and then, for n >= 1 elements, a body with n - 1 commas whose pieces are the float texts in order (given comma-free float texts); an empty array gives `tag:B:f` alone |
| `Gfa.ByteArrayExample` | src/gfa.rs:43-49 | the byte array `[1, 10, 15]` renders as `xx:H:1af` |
| `Gfa.IntArrayExample` | src/gfa.rs:50-59 | the integer array `[1, -2, 3]` renders as `xx:B:I1,-2,3` |
| `Gfa.NewSegment` | src/gfa.rs:87-95 | `Segment::new` stores the name and sequence; every optional attribute is absent and there are no optional fields |
| `Gfa.NewLink` | src/gfa.rs:157-174 | `Link::new` stores both ends, both orientations and the overlap; every optional attribute is absent and there are no optional fields |
| `Gfa.ConfigNone` | src/gfa.rs:243-250 | `none()` keeps no record kind |
| `Gfa.ConfigAll` | src/gfa.rs:252-259 | `all()` keeps every record kind |
| `Gfa.NewGFA` | src/gfa.rs:272-276 | `GFA::new` has no version and four empty record lists |
| `Gfa.PathTokenShape` | src/gfa.rs:207-210 | a token is accepted exactly when it is non-empty and its last character is `+` or `-` |
| `Gfa.SplitToken` | src/gfa.rs:206-212 | a token splits into a name one character shorter and an orientation; name followed by symbol is the token |
| `Gfa.NewPath` | src/gfa.rs:198-221 | `Path::new` keeps the name and overlaps as given (no length check against the segments), has no optional fields, and gives one step per token in order, each step's name and symbol spelling that token |
| `Gfa.SplitStepText` | src/gfa.rs:206-212 | splitting the token of a step gives that step back |
| `Gfa.PathRoundTrip` | src/gfa.rs:204-213 | building a path from the tokens of any list of steps gives back exactly those steps |
| `Gfa.CreatePathExample` | src/gfa.rs:282-306 | tokens `1+ 2- 13- 60+` with overlaps `8M 10M 0M 2M` give steps (1,F), (2,B), (13,B), (60,F) with the overlaps unchanged |

## Left out

- Float formatting (`src/gfa.rs:40`, `66`): Rust's `f32` `Display` is
  floating-point text formatting. It is a parameter (`floatText`) of the
  rendering functions, so nothing is claimed about the digits it writes.
- `Gfa.FloatArrayText`: splits back into the float texts only under the
  assumption that `floatText` writes no comma. Rust's `f32` text never does,
  but the parameter cannot show it.
- Errors from the `Formatter` sink (`write!`'s `fmt::Result`): the output is
  modelled as a returned string. Writing to a sink is I/O.
- The derived `Debug`, `Clone`, `PartialEq`, `PartialOrd` and `Default`
  impls: these are compiler-generated. Datatype equality stands for
  structural equality. Since an `F32` is its bit pattern, IEEE equality (NaN,
  signed zero) is not modelled.
- UTF-8 byte boundaries in `split_at(s.len() - 1)`: strings are sequences of
  characters, and "last character" is taken at the character level. A token
  whose last character is not ASCII aborts in the source either way.
- `Containment`, `Header` and `Line` have no operations in the source, so they
  are datatypes only.
- Optional-field decoding, line tokenisation, file reading and writing, and
  accumulating lines into a `GFA` under a configuration: `src/gfa.rs` has none
  of these.
