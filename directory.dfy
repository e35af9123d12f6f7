/**
  The `DefaultDir` naming convention of the Windows Installer Directory
  table, as the `directory` module of the msi-reader library decodes it.

  A raw field reads `[source:]target`, and each of `source` and `target`
  reads `[short|]long`. Both view types keep the raw string and derive every
  part on demand by splitting at the FIRST separator; nothing is validated,
  so every string decodes.
 */
module Directory {
  import opened Wrappers
  import opened FirstSplit

  /** Separates the optional source name from the target name. */
  const SOURCE_SEPARATOR: char := ':'
  /** Separates the optional short (8.3) form from the long form. */
  const NAME_SEPARATOR: char := '|'
  /** The name that places a directory at its parent's location. */
  const PARENT_SENTINEL: string := "."

  /** A name made of a long form and, optionally, a different short form. */
  datatype MsiName = MsiName(combined: string) {

    /** The long form: everything after the first `|`, or the whole name. */
    function Long(): (r: string)
      ensures NAME_SEPARATOR !in combined ==> r == combined
      ensures NAME_SEPARATOR in combined ==> IsSuffixAfterFirst(combined, NAME_SEPARATOR, r)
    {
      match Find(combined, NAME_SEPARATOR)
      case Some(index) => combined[index + 1..]
      case None => combined
    }

    /** The short form: everything before the first `|`, absent without one. */
    function Short(): (r: Option<string>)
      ensures r.None? <==> NAME_SEPARATOR !in combined
      ensures r.Some? ==> IsPrefixBeforeFirst(combined, NAME_SEPARATOR, r.value)
    {
      match Find(combined, NAME_SEPARATOR)
      case Some(index) => Some(combined[..index])
      case None => None
    }

    /** The raw name, untouched. */
    function Combined(): string {
      combined
    }

    /** Whether either form is the parent sentinel; the long form is consulted first. */
    predicate IsLocatedAtParent() {
      if Long() == PARENT_SENTINEL then true
      else
        match Short()
        case Some(src) => src == PARENT_SENTINEL
        case None => false
    }

    function Debug(): string {
      Combined()
    }

    function Display(): string {
      match Short()
      case Some(short) => "short = " + short + ", long = " + Long()
      case None => Long()
    }
  }

  /** A directory name made of a target name and, optionally, a different source name. */
  datatype MsiDirectoryName = MsiDirectoryName(combined: string) {

    /** The source name: everything before the first `:`, absent without one. */
    function Source(): (r: Option<MsiName>)
      ensures r.None? <==> SOURCE_SEPARATOR !in combined
      ensures r.Some? ==> IsPrefixBeforeFirst(combined, SOURCE_SEPARATOR, r.value.combined)
    {
      match Find(combined, SOURCE_SEPARATOR)
      case Some(index) => Some(MsiName(combined[0..index]))
      case None => None
    }

    /** The target name: everything after the first `:`, or the whole field. */
    function Target(): (r: MsiName)
      ensures SOURCE_SEPARATOR !in combined ==> r.combined == combined
      ensures SOURCE_SEPARATOR in combined ==> IsSuffixAfterFirst(combined, SOURCE_SEPARATOR, r.combined)
    {
      match Find(combined, SOURCE_SEPARATOR)
      case Some(index) => MsiName(combined[index + 1..])
      case None => MsiName(combined)
    }

    /** The raw field, untouched. */
    function Combined(): string {
      combined
    }

    function Debug(): string {
      Combined()
    }

    function Display(): string {
      match Source()
      case Some(source) => "source = [" + source.Display() + "], target = [" + Target().Display() + "]"
      case None => Target().Display()
    }
  }

  /** The raw name that has the given parts (the encoding direction, as a specification). */
  ghost function JoinName(short: Option<string>, long: string): string {
    match short
    case Some(s) => s + [NAME_SEPARATOR] + long
    case None => long
  }

  /** Parts that survive a join: a short form holds no `|`, nor does a lone long form. */
  ghost predicate ValidNameParts(short: Option<string>, long: string) {
    match short
    case Some(s) => NAME_SEPARATOR !in s
    case None => NAME_SEPARATOR !in long
  }

  /** The raw field that has the given parts. */
  ghost function JoinDirectory(source: Option<MsiName>, target: MsiName): string {
    match source
    case Some(s) => s.combined + [SOURCE_SEPARATOR] + target.combined
    case None => target.combined
  }

  ghost predicate ValidDirectoryParts(source: Option<MsiName>, target: MsiName) {
    match source
    case Some(s) => SOURCE_SEPARATOR !in s.combined
    case None => SOURCE_SEPARATOR !in target.combined
  }

  /** Every name decodes into parts that satisfy `ValidNameParts`, so the
      lemmas stated over valid parts cover every string. */
  lemma NameDecodedPartsValid(n: MsiName)
    ensures ValidNameParts(n.Short(), n.Long())
  {
  }

  /** Every field decodes into parts that satisfy `ValidDirectoryParts`. */
  lemma DirectoryDecodedPartsValid(d: MsiDirectoryName)
    ensures ValidDirectoryParts(d.Source(), d.Target())
  {
  }

  /** No character of a name is lost or duplicated by the split. */
  lemma NameJoinSplit(n: MsiName)
    ensures JoinName(n.Short(), n.Long()) == n.Combined()
  {
    match Find(n.combined, NAME_SEPARATOR)
    case Some(index) =>
      assert n.combined == n.combined[..index] + [NAME_SEPARATOR] + n.combined[index + 1..];
    case None =>
  }

  /** Splitting a joined name gives back exactly its parts; the long form keeps any later `|`. */
  lemma NameSplitJoin(short: Option<string>, long: string)
    requires ValidNameParts(short, long)
    ensures MsiName(JoinName(short, long)).Short() == short
    ensures MsiName(JoinName(short, long)).Long() == long
  {
    match short
    case Some(s) =>
      FindAfterPrefix(s, NAME_SEPARATOR, long);
      assert (s + [NAME_SEPARATOR] + long)[..|s|] == s;
      assert (s + [NAME_SEPARATOR] + long)[|s| + 1..] == long;
    case None =>
  }

  /** A leading `|` gives a short form that is present but empty. */
  lemma ShortEmptyWhenSeparatorFirst(long: string)
    ensures MsiName([NAME_SEPARATOR] + long).Short() == Some("")
    ensures MsiName([NAME_SEPARATOR] + long).Long() == long
  {
    NameSplitJoin(Some(""), long);
    assert JoinName(Some(""), long) == [NAME_SEPARATOR] + long;
  }

  /** A name is at its parent's location exactly when its long form, or
      its short form when it has one, is `.`. */
  lemma ParentOfParts(short: Option<string>, long: string)
    requires ValidNameParts(short, long)
    ensures MsiName(JoinName(short, long)).IsLocatedAtParent()
        <==> long == PARENT_SENTINEL || short == Some(PARENT_SENTINEL)
  {
    NameSplitJoin(short, long);
  }

  /** Display shows both forms when a short form exists, else the long form alone. */
  lemma NameDisplayOfParts(short: Option<string>, long: string)
    requires ValidNameParts(short, long)
    ensures MsiName(JoinName(short, long)).Display()
         == match short
            case Some(s) => "short = " + s + ", long = " + long
            case None => long
  {
    NameSplitJoin(short, long);
  }

  /** No character of a field is lost or duplicated by the split. */
  lemma DirectoryJoinSplit(d: MsiDirectoryName)
    ensures JoinDirectory(d.Source(), d.Target()) == d.Combined()
  {
    match Find(d.combined, SOURCE_SEPARATOR)
    case Some(index) =>
      assert d.combined == d.combined[0..index] + [SOURCE_SEPARATOR] + d.combined[index + 1..];
    case None =>
  }

  /** Splitting a joined field gives back exactly its parts; the target keeps any later `:`. */
  lemma DirectorySplitJoin(source: Option<MsiName>, target: MsiName)
    requires ValidDirectoryParts(source, target)
    ensures MsiDirectoryName(JoinDirectory(source, target)).Source() == source
    ensures MsiDirectoryName(JoinDirectory(source, target)).Target() == target
  {
    match source
    case Some(s) =>
      var raw := s.combined + [SOURCE_SEPARATOR] + target.combined;
      FindAfterPrefix(s.combined, SOURCE_SEPARATOR, target.combined);
      assert raw[0..|s.combined|] == s.combined;
      assert raw[|s.combined| + 1..] == target.combined;
    case None =>
  }

  /** The whole `[short|]long:[short|]long` field is rebuilt from its four decoded parts. */
  lemma FieldJoinSplit(d: MsiDirectoryName)
    ensures var t := d.Target();
            var source := match d.Source()
                          case Some(s) => Some(MsiName(JoinName(s.Short(), s.Long())))
                          case None => None;
            JoinDirectory(source, MsiName(JoinName(t.Short(), t.Long()))) == d.Combined()
  {
    DirectoryJoinSplit(d);
    NameJoinSplit(d.Target());
    if d.Source().Some? {
      NameJoinSplit(d.Source().value);
    }
  }

  /** Display shows source and target when a source exists, else the target alone. */
  lemma DirectoryDisplayOfParts(source: Option<MsiName>, target: MsiName)
    requires ValidDirectoryParts(source, target)
    ensures MsiDirectoryName(JoinDirectory(source, target)).Display()
         == match source
            case Some(s) => "source = [" + s.Display() + "], target = [" + target.Display() + "]"
            case None => target.Display()
  {
    DirectorySplitJoin(source, target);
  }

  /** A name keeps its raw string, and Debug renders exactly that string. */
  lemma NameDebugIsRaw(raw: string)
    ensures MsiName(raw).Combined() == raw
    ensures MsiName(raw).Debug() == raw
  {
  }

  /** A field keeps its raw string, and Debug renders exactly that string. */
  lemma DirectoryDebugIsRaw(raw: string)
    ensures MsiDirectoryName(raw).Combined() == raw
    ensures MsiDirectoryName(raw).Debug() == raw
  {
  }

  /** Degenerate fields still decode: the empty field and a lone `|`. */
  lemma EdgeCases()
    ensures MsiDirectoryName("").Source() == None
    ensures MsiDirectoryName("").Target().Long() == ""
    ensures MsiDirectoryName("").Target().Short() == None
    ensures !MsiDirectoryName("").Target().IsLocatedAtParent()
    ensures MsiName("|").Short() == Some("") && MsiName("|").Long() == ""
    ensures !MsiName("|").IsLocatedAtParent()
  {
    ShortEmptyWhenSeparatorFirst("");
  }

  /** The scenarios of the library's parsing test: a `.` source before a plain target. */
  lemma ParentSourcePlainTarget()
    ensures var d := MsiDirectoryName(".:Alpha");
            && d.Source().Some?
            && d.Source().value.Long() == "."
            && d.Source().value.IsLocatedAtParent()
            && d.Source().value.Short().None?
            && d.Target().Long() == "Alpha"
            && !d.Target().IsLocatedAtParent()
            && d.Target().Short().None?
  {
    var dot, alpha := ".", "Alpha";
    assert JoinDirectory(Some(MsiName(dot)), MsiName(alpha)) == ".:Alpha";
    assert NAME_SEPARATOR !in dot && NAME_SEPARATOR !in alpha && SOURCE_SEPARATOR !in dot;
    // `Alpha` is not the sentinel: their lengths differ.
    assert |alpha| != |PARENT_SENTINEL|;
    DirectorySplitJoin(Some(MsiName(dot)), MsiName(alpha));
    NameSplitJoin(None, dot);
    ParentOfParts(None, dot);
    NameSplitJoin(None, alpha);
    ParentOfParts(None, alpha);
  }

  /** A `.` source before a target with both forms. The field is the test's
      `.:PROGRA~1|Program Files (x86)`, written with its separators apart. */
  lemma ParentSourceShortLongTarget()
    ensures var d := MsiDirectoryName("." + ":" + ("PROGRA~1" + "|" + "Program Files (x86)"));
            && d.Source().Some?
            && d.Source().value.Long() == "."
            && d.Source().value.IsLocatedAtParent()
            && d.Source().value.Short().None?
            && d.Target().Long() == "Program Files (x86)"
            && !d.Target().IsLocatedAtParent()
            && d.Target().Short() == Some("PROGRA~1")
  {
    var dot, short, long := ".", "PROGRA~1", "Program Files (x86)";
    var source, target := MsiName(dot), MsiName(JoinName(Some(short), long));
    assert NAME_SEPARATOR !in dot && NAME_SEPARATOR !in short && SOURCE_SEPARATOR !in dot;
    // Neither form of the target is the sentinel: their lengths differ.
    assert |short| != |PARENT_SENTINEL| && |long| != |PARENT_SENTINEL|;
    DirectorySplitJoin(Some(source), target);
    NameSplitJoin(None, dot);
    ParentOfParts(None, dot);
    NameSplitJoin(Some(short), long);
    ParentOfParts(Some(short), long);
  }

  /** A source with both forms before a plain target. The field is the test's
      `SRCDIR|SourceDir:Alpha`, written with its separators apart. */
  lemma ShortLongSourcePlainTarget()
    ensures var d := MsiDirectoryName("SRCDIR" + "|" + "SourceDir" + ":" + "Alpha");
            && d.Source().Some?
            && d.Source().value.Long() == "SourceDir"
            && !d.Source().value.IsLocatedAtParent()
            && d.Source().value.Short() == Some("SRCDIR")
            && d.Target().Long() == "Alpha"
            && !d.Target().IsLocatedAtParent()
            && d.Target().Short().None?
  {
    var short, long, alpha := "SRCDIR", "SourceDir", "Alpha";
    var source := MsiName(JoinName(Some(short), long));
    assert NAME_SEPARATOR !in short && NAME_SEPARATOR !in alpha;
    assert SOURCE_SEPARATOR !in short && SOURCE_SEPARATOR !in long;
    // No form here is the sentinel: their lengths differ.
    assert |short| != |PARENT_SENTINEL| && |long| != |PARENT_SENTINEL| && |alpha| != |PARENT_SENTINEL|;
    DirectorySplitJoin(Some(source), MsiName(alpha));
    NameSplitJoin(Some(short), long);
    ParentOfParts(Some(short), long);
    NameSplitJoin(None, alpha);
    ParentOfParts(None, alpha);
  }

  /** A lone target with neither source nor short form. */
  lemma PlainTargetOnly()
    ensures var d := MsiDirectoryName("TARGETDIR");
            && d.Source().None?
            && d.Target().Long() == "TARGETDIR"
            && !d.Target().IsLocatedAtParent()
            && d.Target().Short().None?
  {
    var raw := "TARGETDIR";
    DirectorySplitJoin(None, MsiName(raw));
    NameSplitJoin(None, raw);
    ParentOfParts(None, raw);
  }
}
