/**
  The msi-reader executable's own copy of the two view types: a second copy,
  without the parent-sentinel check; otherwise every accessor and rendering
  is written the same way as in the library's `directory` module. The
  lemmas at the end show that the two copies decode every string alike, so
  each property proved of the library holds of the executable too.
 */
module Binary {
  import opened Wrappers
  import opened FirstSplit
  import Directory

  /** A name made of a long form and, optionally, a different short form. */
  datatype MsiName = MsiName(combined: string) {

    /** The long form: everything after the first `|`, or the whole name. */
    function Long(): (r: string)
      ensures Directory.NAME_SEPARATOR !in combined ==> r == combined
      ensures Directory.NAME_SEPARATOR in combined ==> IsSuffixAfterFirst(combined, Directory.NAME_SEPARATOR, r)
    {
      match Find(combined, Directory.NAME_SEPARATOR)
      case Some(index) => combined[index + 1..]
      case None => combined
    }

    /** The short form: everything before the first `|`, absent without one. */
    function Short(): (r: Option<string>)
      ensures r.None? <==> Directory.NAME_SEPARATOR !in combined
      ensures r.Some? ==> IsPrefixBeforeFirst(combined, Directory.NAME_SEPARATOR, r.value)
    {
      match Find(combined, Directory.NAME_SEPARATOR)
      case Some(index) => Some(combined[..index])
      case None => None
    }

    /** The raw name, untouched. */
    function Combined(): string {
      combined
    }

    function Debug(): string {
      Combined()
    }

    function Display(): string {
      match Short()
      case Some(short) => "short = " + short + ", long = " + Long()
      case None => Long()
    }
  }

  /** A directory name made of a target name and, optionally, a different source name. */
  datatype MsiDirectoryName = MsiDirectoryName(combined: string) {

    /** The source name: everything before the first `:`, absent without one. */
    function Source(): (r: Option<MsiName>)
      ensures r.None? <==> Directory.SOURCE_SEPARATOR !in combined
      ensures r.Some? ==> IsPrefixBeforeFirst(combined, Directory.SOURCE_SEPARATOR, r.value.combined)
    {
      match Find(combined, Directory.SOURCE_SEPARATOR)
      case Some(index) => Some(MsiName(combined[0..index]))
      case None => None
    }

    /** The target name: everything after the first `:`, or the whole field. */
    function Target(): (r: MsiName)
      ensures Directory.SOURCE_SEPARATOR !in combined ==> r.combined == combined
      ensures Directory.SOURCE_SEPARATOR in combined
              ==> IsSuffixAfterFirst(combined, Directory.SOURCE_SEPARATOR, r.combined)
    {
      match Find(combined, Directory.SOURCE_SEPARATOR)
      case Some(index) => MsiName(combined[index + 1..])
      case None => MsiName(combined)
    }

    /** The raw field, untouched. */
    function Combined(): string {
      combined
    }

    function Debug(): string {
      Combined()
    }

    function Display(): string {
      match Source()
      case Some(source) => "source = [" + source.Display() + "], target = [" + Target().Display() + "]"
      case None => Target().Display()
    }
  }

  /** The executable's name view decodes and renders every string as the library's does. */
  lemma NameAgreesWithLibrary(raw: string)
    ensures MsiName(raw).Long() == Directory.MsiName(raw).Long()
    ensures MsiName(raw).Short() == Directory.MsiName(raw).Short()
    ensures MsiName(raw).Combined() == Directory.MsiName(raw).Combined() == raw
    ensures MsiName(raw).Debug() == Directory.MsiName(raw).Debug() == raw
    ensures MsiName(raw).Display() == Directory.MsiName(raw).Display()
  {
  }

  /** The executable's directory view decodes and renders every field as the library's does. */
  lemma DirectoryAgreesWithLibrary(raw: string)
    ensures var d, lib := MsiDirectoryName(raw), Directory.MsiDirectoryName(raw);
            && d.Source().Some? == lib.Source().Some?
            && (d.Source().Some? ==> d.Source().value.combined == lib.Source().value.combined)
            && d.Target().combined == lib.Target().combined
            && d.Combined() == lib.Combined() == raw
            && d.Debug() == lib.Debug() == raw
            && d.Display() == lib.Display()
  {
    var d, lib := MsiDirectoryName(raw), Directory.MsiDirectoryName(raw);
    NameAgreesWithLibrary(d.Target().combined);
    if d.Source().Some? {
      NameAgreesWithLibrary(d.Source().value.combined);
    }
  }

  /** A name is rebuilt from its short and long forms with nothing lost or duplicated. */
  lemma NameJoinSplit(n: MsiName)
    ensures n.Short().None? ==> n.Long() == n.Combined()
    ensures n.Short().Some? ==> n.Short().value + [Directory.NAME_SEPARATOR] + n.Long() == n.Combined()
  {
    NameAgreesWithLibrary(n.combined);
    Directory.NameJoinSplit(Directory.MsiName(n.combined));
  }

  /** A field is rebuilt from its source and target with nothing lost or duplicated. */
  lemma DirectoryJoinSplit(d: MsiDirectoryName)
    ensures d.Source().None? ==> d.Target().Combined() == d.Combined()
    ensures d.Source().Some?
            ==> d.Source().value.Combined() + [Directory.SOURCE_SEPARATOR] + d.Target().Combined() == d.Combined()
  {
    DirectoryAgreesWithLibrary(d.combined);
    Directory.DirectoryJoinSplit(Directory.MsiDirectoryName(d.combined));
  }

  /** The scenarios of the executable's parsing test: a `.` source before a plain target. */
  lemma ParentSourcePlainTarget()
    ensures var d := MsiDirectoryName(".:Alpha");
            && d.Source().Some?
            && d.Source().value.Long() == "."
            && d.Source().value.Short().None?
            && d.Target().Long() == "Alpha"
            && d.Target().Short().None?
  {
    var raw := ".:Alpha";
    var d := MsiDirectoryName(raw);
    Directory.ParentSourcePlainTarget();
    DirectoryAgreesWithLibrary(raw);
    NameAgreesWithLibrary(d.Source().value.combined);
    NameAgreesWithLibrary(d.Target().combined);
  }

  /** A `.` source before a target with both forms: the test's
      `.:PROGRA~1|Program Files (x86)`, written with its separators apart. */
  lemma ParentSourceShortLongTarget()
    ensures var d := MsiDirectoryName("." + ":" + ("PROGRA~1" + "|" + "Program Files (x86)"));
            && d.Source().Some?
            && d.Source().value.Long() == "."
            && d.Source().value.Short().None?
            && d.Target().Long() == "Program Files (x86)"
            && d.Target().Short() == Some("PROGRA~1")
  {
    var raw := "." + ":" + ("PROGRA~1" + "|" + "Program Files (x86)");
    var d := MsiDirectoryName(raw);
    Directory.ParentSourceShortLongTarget();
    DirectoryAgreesWithLibrary(raw);
    NameAgreesWithLibrary(d.Source().value.combined);
    NameAgreesWithLibrary(d.Target().combined);
  }

  /** A source with both forms before a plain target: the test's
      `SRCDIR|SourceDir:Alpha`, written with its separators apart. */
  lemma ShortLongSourcePlainTarget()
    ensures var d := MsiDirectoryName("SRCDIR" + "|" + "SourceDir" + ":" + "Alpha");
            && d.Source().Some?
            && d.Source().value.Long() == "SourceDir"
            && d.Source().value.Short() == Some("SRCDIR")
            && d.Target().Long() == "Alpha"
            && d.Target().Short().None?
  {
    var raw := "SRCDIR" + "|" + "SourceDir" + ":" + "Alpha";
    var d := MsiDirectoryName(raw);
    Directory.ShortLongSourcePlainTarget();
    DirectoryAgreesWithLibrary(raw);
    NameAgreesWithLibrary(d.Source().value.combined);
    NameAgreesWithLibrary(d.Target().combined);
  }

  /** A lone target with neither source nor short form. */
  lemma PlainTargetOnly()
    ensures var d := MsiDirectoryName("TARGETDIR");
            && d.Source().None?
            && d.Target().Long() == "TARGETDIR"
            && d.Target().Short().None?
  {
    var raw := "TARGETDIR";
    var d := MsiDirectoryName(raw);
    Directory.PlainTargetOnly();
    DirectoryAgreesWithLibrary(raw);
    NameAgreesWithLibrary(d.Target().combined);
  }
}
