# msi-reader DefaultDir names, in Dafny

This project models how msi-reader decodes the `DefaultDir` naming convention
of the Windows Installer Directory table, and proves properties of that model.

A raw field reads `[source:]target`, and each of `source` and `target` reads
`[short|]long`. Two read-only views do the decoding:

- `MsiDirectoryName` splits its string at the first `:`. The part before it is
  the optional source name. The part after it, or the whole string when there
  is no `:`, is the target name.
- `MsiName` splits its string at the first `|`. The part before it is the
  optional short (8.3) form. The part after it, or the whole string when there
  is no `|`, is the long form. A name is "located at parent" when one of its
  forms is the sentinel `.`.

Every accessor is total: any string decodes, including the empty string and
strings made only of separators. Debug renders the raw string. Display renders
`short = S, long = L` or `L` for a name, and `source = [S], target = [T]` or
`T` for a field. Each part uses its own Display.

Layout:

- `wrappers.dfy` holds the `Option` type. It stands for Rust's `Option`.
- `first_split.dfy` (module `FirstSplit`) models `str::find` for one character.
  `FindFrom` scans one character at a time, and `Find` starts it at 0. The
  module also has the two specifications every split is proved against:
  `IsPrefixBeforeFirst` (the text before the first separator, which holds no
  separator) and `IsSuffixAfterFirst` (the text after it, which may hold more).
  The separators are ASCII, so the byte index `find` returns is the character
  index used here.
- `directory.dfy` (module `Directory`) models the library module
  `msi-reader/src/lib.rs`. Rust's `From<&str>` impls are the datatype
  constructors `MsiName(combined)` and `MsiDirectoryName(combined)`.
  `JoinName` and `JoinDirectory` describe the encoding direction. They are
  specifications only: the source has no encoder. They are the inverse that the
  round-trip lemmas prove against.
- `binary.dfy` (module `Binary`) models the executable's copy of the same types
  in `msi-reader/src/main.rs`. That copy has no `is_located_at_parent`. Its
  accessors are written the same way as the library's. `NameAgreesWithLibrary`
  and `DirectoryAgreesWithLibrary` prove that both copies decode and render
  every string alike.

`is_located_at_parent` checks the long form first and looks at the short form
only when the long form is not `.`. The source is pure, so that order cannot be
observed. The result is true exactly when the long form is `.` or the short
form exists and is `.`; `ParentOfParts` proves both directions.

The scenario lemmas state each test field by its literal text. The two fields
that hold both separators are written with the separators apart, for example
`"." + ":" + ("PROGRA~1" + "|" + "Program Files (x86)")`, which is the same
string as the test's `".:PROGRA~1|Program Files (x86)"`.

The accessor contracts are built from `IsPrefixBeforeFirst` and
`IsSuffixAfterFirst`. `PrefixBeforeFirstUnique` and `SuffixAfterFirstUnique`
prove that each of these specifications holds of at most one string, so the
`Short`, `Long`, `Source` and `Target` contracts fix each result completely.

Some members model a source function but have no contract of their own: the
`Combined`, `Debug` and `Display` renderings and `is_located_at_parent`. Their
rows below name the lemma that states what they do.

## Model

| member | source | states |
|---|---|---|
| `FirstSplit.Find` | msi-reader/src/lib.rs:28 | `find` returns `None` exactly when the character does not occur. Otherwise it returns an index holding the character, with no earlier occurrence. |
| `FirstSplit.FindAfterPrefix` | msi-reader/src/lib.rs:108 | In `p + [c] + q` where `p` has no `c`, `find` returns exactly `\|p\|`. `q` may hold any number of `c`. |
| `FirstSplit.FindFrom` | msi-reader/src/lib.rs:28 | Scanning from position `from`, the result is `None` exactly when the character does not occur from there on. Otherwise it is the first position at or after `from` that holds it. |
| `FirstSplit.PrefixBeforeFirstUnique` | msi-reader/src/lib.rs:119-128 | At most one string is the text before the first separator, so the short form and the source are fixed by their contracts. |
| `FirstSplit.SuffixAfterFirstUnique` | msi-reader/src/lib.rs:107-116 | At most one string is the text after the first separator, so the long form and the target are fixed by their contracts. |
| `Directory.MsiName.Long` | msi-reader/src/lib.rs:107-116 | Without `\|`, the long form is the whole name. With one, it is the text after the first `\|`. |
| `Directory.MsiName.Short` | msi-reader/src/lib.rs:119-128 | The short form is absent exactly when the name has no `\|`. Otherwise it is the text before the first `\|`, and it holds no `\|`. |
| `Directory.MsiDirectoryName.Source` | msi-reader/src/lib.rs:26-36 | The source is absent exactly when the field has no `:`. Otherwise it is the name before the first `:`, and it holds no `:`. |
| `Directory.MsiDirectoryName.Target` | msi-reader/src/lib.rs:38-48 | Without `:`, the target is the whole field. With one, it is the text after the first `:`. |
| `Directory.MsiName.Combined` | msi-reader/src/lib.rs:131-133 | No contract of its own; `NameDebugIsRaw` states it: `combined()` is the raw string. |
| `Directory.MsiName.Debug` | msi-reader/src/lib.rs:76-80 | No contract of its own; `NameDebugIsRaw` states it: Debug renders the raw string. |
| `Directory.MsiName.Display` | msi-reader/src/lib.rs:82-93 | No contract of its own; `NameDisplayOfParts` states it for every name. |
| `Directory.MsiName.IsLocatedAtParent` | msi-reader/src/lib.rs:136-149 | No contract of its own; `ParentOfParts` states it in both directions. |
| `Directory.MsiDirectoryName.Combined` | msi-reader/src/lib.rs:50-52 | No contract of its own; `DirectoryDebugIsRaw` states it: `combined()` is the raw field. |
| `Directory.MsiDirectoryName.Debug` | msi-reader/src/lib.rs:55-60 | No contract of its own; `DirectoryDebugIsRaw` states it: Debug renders the raw field. |
| `Directory.MsiDirectoryName.Display` | msi-reader/src/lib.rs:62-74 | No contract of its own; `DirectoryDisplayOfParts` states it for every field. |
| `Directory.NameDecodedPartsValid` | msi-reader/src/lib.rs:107-128 | The short and long forms of every name satisfy `ValidNameParts`: a present short form has no `\|`, and without one the long form has none. So the lemmas over valid parts cover every decoded name. |
| `Directory.DirectoryDecodedPartsValid` | msi-reader/src/lib.rs:26-48 | The source and target of every field satisfy `ValidDirectoryParts`: a present source has no `:`, and without one the target has none. |
| `Directory.NameJoinSplit` | msi-reader/src/lib.rs:104-133 | For every name, joining its short form (when present), `\|` and its long form gives back `combined()`. No character is lost or duplicated. |
| `Directory.NameSplitJoin` | msi-reader/src/lib.rs:107-128 | Decoding a joined name gives back exactly its short and long forms, when the short form has no `\|` (or, with no short form, the long form has none). The long form may keep later `\|`. |
| `Directory.ShortEmptyWhenSeparatorFirst` | msi-reader/src/lib.rs:119-127 | A leading `\|` gives a short form that is present but empty. The long form is the rest. |
| `Directory.ParentOfParts` | msi-reader/src/lib.rs:136-149 | `is_located_at_parent` holds exactly when the long form is `.`, or a short form exists and is `.`. |
| `Directory.NameDisplayOfParts` | msi-reader/src/lib.rs:82-93 | Display of a name is `short = S, long = L` when it has short form S, and its long form L otherwise. |
| `Directory.DirectoryJoinSplit` | msi-reader/src/lib.rs:24-52 | For every field, joining the source (when present), `:` and the target gives back `combined()`. |
| `Directory.DirectorySplitJoin` | msi-reader/src/lib.rs:26-48 | Decoding a joined field gives back exactly its source and target, when the source has no `:` (or, with no source, the target has none). The target may keep later `:`. |
| `Directory.FieldJoinSplit` | msi-reader/src/lib.rs:15-52 | The whole `[short\|]long:[short\|]long` field is rebuilt from its up to four decoded parts. |
| `Directory.DirectoryDisplayOfParts` | msi-reader/src/lib.rs:62-74 | Display of a field is `source = [DS], target = [DT]` when it has a source, and DT otherwise. DS and DT are the parts' own Displays. |
| `Directory.NameDebugIsRaw` | msi-reader/src/lib.rs:76-80 | A name's `combined()` is the string it was made from, and Debug renders exactly that string. |
| `Directory.DirectoryDebugIsRaw` | msi-reader/src/lib.rs:50-60 | A field's `combined()` is the string it was made from, and Debug renders exactly that string. |
| `Directory.EdgeCases` | msi-reader/src/lib.rs:104-149 | The empty field has no source, and its target has an empty long form, no short form and is not at parent. `\|` has an empty short form and an empty long form, and is not at parent. |
| `Directory.ParentSourcePlainTarget` | msi-reader/src/lib.rs:159-171 | `.:Alpha`: the source has long form `.`, no short form and is at parent. The target is `Alpha`, with no short form, and is not at parent. |
| `Directory.ParentSourceShortLongTarget` | msi-reader/src/lib.rs:173-185 | `.:PROGRA~1\|Program Files (x86)`: the source is `.` and at parent. The target has short form `PROGRA~1` and long form `Program Files (x86)`, and is not at parent. |
| `Directory.ShortLongSourcePlainTarget` | msi-reader/src/lib.rs:187-200 | `SRCDIR\|SourceDir:Alpha`: the source has short form `SRCDIR` and long form `SourceDir`, and is not at parent. The target is `Alpha`, with no short form. |
| `Directory.PlainTargetOnly` | msi-reader/src/lib.rs:202-210 | `TARGETDIR`: no source. The target is `TARGETDIR`, with no short form, and is not at parent. |
| `Binary.MsiName.Long` | msi-reader/src/main.rs:102-111 | Without `\|`, the long form is the whole name. With one, it is the text after the first `\|`. |
| `Binary.MsiName.Short` | msi-reader/src/main.rs:113-122 | The short form is absent exactly when there is no `\|`. Otherwise it is the text before the first `\|`. |
| `Binary.MsiDirectoryName.Source` | msi-reader/src/main.rs:22-32 | The source is absent exactly when there is no `:`. Otherwise it is the name before the first `:`. |
| `Binary.MsiDirectoryName.Target` | msi-reader/src/main.rs:34-44 | Without `:`, the target is the whole field. With one, it is the text after the first `:`. |
| `Binary.MsiName.Combined` | msi-reader/src/main.rs:124-126 | No contract of its own; `NameAgreesWithLibrary` states it: `combined()` is the raw string. |
| `Binary.MsiName.Debug` | msi-reader/src/main.rs:72-76 | No contract of its own; `NameAgreesWithLibrary` states it: Debug renders the raw string. |
| `Binary.MsiName.Display` | msi-reader/src/main.rs:78-89 | No contract of its own; `NameAgreesWithLibrary` states it equals the library's Display, which `NameDisplayOfParts` describes. |
| `Binary.MsiDirectoryName.Combined` | msi-reader/src/main.rs:46-48 | No contract of its own; `DirectoryAgreesWithLibrary` states it: `combined()` is the raw field. |
| `Binary.MsiDirectoryName.Debug` | msi-reader/src/main.rs:51-56 | No contract of its own; `DirectoryAgreesWithLibrary` states it: Debug renders the raw field. |
| `Binary.MsiDirectoryName.Display` | msi-reader/src/main.rs:58-70 | No contract of its own; `DirectoryAgreesWithLibrary` states it equals the library's Display, which `DirectoryDisplayOfParts` describes. |
| `Binary.NameAgreesWithLibrary` | msi-reader/src/main.rs:72-126 | The executable's name gives the same long form, short form, `combined()`, Debug and Display as the library's, for every string. Debug is the raw string. |
| `Binary.DirectoryAgreesWithLibrary` | msi-reader/src/main.rs:46-70 | The executable's field gives the same source, target, `combined()`, Debug and Display as the library's, for every string. Debug is the raw string. |
| `Binary.NameJoinSplit` | msi-reader/src/main.rs:102-126 | The short form, `\|` and the long form join back to `combined()`. Without a short form, the long form is `combined()`. |
| `Binary.DirectoryJoinSplit` | msi-reader/src/main.rs:22-48 | The source, `:` and the target join back to `combined()`. Without a source, the target is `combined()`. |
| `Binary.ParentSourcePlainTarget` | msi-reader/src/main.rs:141-149 | `.:Alpha`: the source has long form `.` and no short form. The target is `Alpha`, with no short form. |
| `Binary.ParentSourceShortLongTarget` | msi-reader/src/main.rs:151-159 | `.:PROGRA~1\|Program Files (x86)`: the source is `.` with no short form. The target has short form `PROGRA~1` and long form `Program Files (x86)`. |
| `Binary.ShortLongSourcePlainTarget` | msi-reader/src/main.rs:161-169 | `SRCDIR\|SourceDir:Alpha`: the source has short form `SRCDIR` and long form `SourceDir`. The target is `Alpha`, with no short form. |
| `Binary.PlainTargetOnly` | msi-reader/src/main.rs:171-178 | `TARGETDIR`: no source. The target is `TARGETDIR`, with no short form. |

## Left out

- Lifetimes and zero-copy borrowing: every view is modelled as its string value. Rust's memory safety already guarantees the aliasing, so it is not a behaviour to verify.
- `std::fmt::Formatter`, `write!` and `fmt::Result`: Display and Debug are string-valued functions, and the formatter's error path is not modelled.
- UTF-8 byte offsets: strings are sequences of characters. Both separators are single-byte ASCII, so `find` followed by slicing at `index + 1` picks the same text.
- The empty `main` function in msi-reader/src/main.rs:129-131 does nothing and is not modelled.
- Reading installer containers or tables is not part of this model: these files do neither.
