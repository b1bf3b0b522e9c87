/** The command line front end (src/bin/charlie_cli.rs): the action word,
    the rule that warns about an input file not named `*.yaml`, and the
    order of the steps `main` takes. Paths are POSIX paths; the file name
    and extension follow `std::path::Path`. */
module CharlieCli {

  import opened Common
  import opened Strings

  /** The actions the command line offers. */
  datatype Action = Allocate | Analyze

  /** The `std::io::ErrorKind` of a rejected action word. */
  datatype ErrorKind = InvalidInput

  datatype Parsed = Parsed(action: Action) | Failed(kind: ErrorKind)

  /** The word that selects an action. */
  function Word(a: Action): string
  {
    match a
    case Allocate => "allocate"
    case Analyze => "analyze"
  }

  /** `Action::from_str`: exactly the two lower-case words are accepted, with
      no surrounding blanks; anything else is an invalid input. */
  function ParseAction(s: string): (r: Parsed)
    ensures r == Parsed(Allocate) <==> s == "allocate"
    ensures r == Parsed(Analyze) <==> s == "analyze"
    ensures r.Failed? ==> r.kind == InvalidInput
  {
    if s == "allocate" then Parsed(Allocate)
    else if s == "analyze" then Parsed(Analyze)
    else Failed(InvalidInput)
  }

  /** Parsing inverts `Word`: every action is selected by its word, and a
      word that parses is that action's word. */
  lemma ParseWord(a: Action, s: string)
    ensures ParseAction(Word(a)) == Parsed(a)
    ensures ParseAction(s).Parsed? ==> Word(ParseAction(s).action) == s
  {
  }

  /** Other spellings are rejected: a capital letter, a blank, the British
      "analyse", the empty word. */
  lemma OtherSpellingsRejected()
    ensures ParseAction("Allocate") == Failed(InvalidInput)
    ensures ParseAction(" allocate") == Failed(InvalidInput)
    ensures ParseAction("analyze ") == Failed(InvalidInput)
    ensures ParseAction("analyse") == Failed(InvalidInput)
    ensures ParseAction("") == Failed(InvalidInput)
  {
    assert "Allocate"[0] != "allocate"[0];
    assert |" allocate"| != |"allocate"| && |" allocate"| != |"analyze"|;
    assert "analyze "[1] != "allocate"[1] && |"analyze "| != |"analyze"|;
    assert "analyse"[5] != "analyze"[5];
  }

  /** The first position of `c` in `s`. */
  function IndexOf(s: string, c: char): (j: nat)
    requires c in s
    ensures j < |s| && s[j] == c && c !in s[..j]
  {
    if s[0] == c then 0
    else
      var j := 1 + IndexOf(s[1..], c);
      assert s[..j] == [s[0]] + s[1..][..j - 1];
      j
  }

  /** The last position of `c` in `s`. */
  function LastIndexOf(s: string, c: char): (j: nat)
    requires c in s
    ensures j < |s| && s[j] == c && c !in s[j + 1..]
  {
    if c in s[1..] then 1 + LastIndexOf(s[1..], c) else 0
  }

  /** The pieces of `s` between the separators, in order; an empty piece
      stands between two adjacent separators and at an end that is one. */
  function Split(s: string, sep: char): (parts: seq<string>)
    ensures |parts| >= 1
    ensures forall i :: 0 <= i < |parts| ==> sep !in parts[i]
    decreases |s|
  {
    if sep in s then
      var j := IndexOf(s, sep);
      [s[..j]] + Split(s[j + 1..], sep)
    else [s]
  }

  /** Joining the pieces with the separator gives the string back. */
  lemma {:induction false} JoinSplit(s: string, sep: char)
    ensures Join(Split(s, sep), [sep]) == s
    decreases |s|
  {
    if sep in s {
      var j := IndexOf(s, sep);
      JoinSplit(s[j + 1..], sep);
      assert Split(s, sep)[1..] == Split(s[j + 1..], sep);
      assert s == s[..j] + [sep] + s[j + 1..];
    }
  }

  /** Splitting a join of pieces free of the separator gives the pieces
      back. */
  lemma {:induction false} SplitJoin(parts: seq<string>, sep: char)
    requires |parts| >= 1
    requires forall i :: 0 <= i < |parts| ==> sep !in parts[i]
    ensures Split(Join(parts, [sep]), sep) == parts
    decreases |parts|
  {
    if |parts| > 1 {
      var rest := Join(parts[1..], [sep]);
      var s := parts[0] + [sep] + rest;
      FirstSeparator(parts[0], rest, sep);
      assert s[..|parts[0]|] == parts[0];
      assert s[|parts[0]| + 1..] == rest;
      SplitJoin(parts[1..], sep);
    }
  }

  /** The first separator of `a + [sep] + b` is the one after `a` when `a`
      holds none. */
  lemma FirstSeparator(a: string, b: string, sep: char)
    requires sep !in a
    ensures IndexOf(a + [sep] + b, sep) == |a|
  {
    var s := a + [sep] + b;
    assert s[..|a|] == a && s[|a|] == sep;
  }

  /** Text after the first separator does not move it. */
  lemma {:induction false} IndexOfPrefix(a: string, rest: string, sep: char)
    requires sep in a
    ensures IndexOf(a + rest, sep) == IndexOf(a, sep)
  {
    if a[0] != sep {
      assert (a + rest)[1..] == a[1..] + rest;
      IndexOfPrefix(a[1..], rest, sep);
    }
  }

  /** Splitting a string followed by a separator and a last piece free of
      separators adds that piece at the end. */
  lemma {:induction false} SplitAppend(a: string, b: string, sep: char)
    requires sep !in b
    ensures Split(a + [sep] + b, sep) == Split(a, sep) + [b]
    decreases |a|
  {
    var s := a + [sep] + b;
    if sep in a {
      var j := IndexOf(a, sep);
      assert s == a + ([sep] + b);
      IndexOfPrefix(a, [sep] + b, sep);
      assert s[..j] == a[..j];
      assert s[j + 1..] == a[j + 1..] + [sep] + b;
      SplitAppend(a[j + 1..], b, sep);
      assert Split(s, sep) == [a[..j]] + Split(a[j + 1..] + [sep] + b, sep);
      assert Split(a, sep) == [a[..j]] + Split(a[j + 1..], sep);
    } else {
      FirstSeparator(a, b, sep);
      assert s[..|a|] == a && s[|a| + 1..] == b;
      assert Split(s, sep) == [a] + Split(b, sep);
    }
  }

  /** A piece that names something: `Path::components` drops the empty
      pieces and the `.` pieces. */
  predicate Normal(piece: string)
  {
    piece != "" && piece != "."
  }

  /** The pieces of a path that `Path::components` keeps, in order. */
  function NormalParts(parts: seq<string>): (r: seq<string>)
    ensures |r| <= |parts|
    ensures forall i :: 0 <= i < |r| ==> Normal(r[i])
  {
    if |parts| == 0 then []
    else if Normal(parts[0]) then [parts[0]] + NormalParts(parts[1..])
    else NormalParts(parts[1..])
  }

  lemma {:induction false} NormalPartsAppend(a: seq<string>, b: seq<string>)
    ensures NormalParts(a + b) == NormalParts(a) + NormalParts(b)
    decreases |a|
  {
    if |a| == 0 {
      assert a + b == b;
    } else {
      assert (a + b)[1..] == a[1..] + b;
      NormalPartsAppend(a[1..], b);
    }
  }

  /** `Path::file_name`: the last component, absent when there is none or
      when it is `..`. */
  function FileName(path: string): (r: Option<string>)
    ensures r.Some? ==> Normal(r.value) && r.value != ".." && '/' !in r.value
  {
    var parts := Split(path, '/');
    var components := NormalParts(parts);
    if |components| == 0 || components[|components| - 1] == ".." then None
    else
      NormalPartsMembers(parts, |components| - 1);
      Some(components[|components| - 1])
  }

  /** Every kept piece is one of the pieces. */
  lemma {:induction false} NormalPartsMembers(parts: seq<string>, i: nat)
    requires i < |NormalParts(parts)|
    ensures NormalParts(parts)[i] in parts
    decreases |parts|
  {
    if Normal(parts[0]) {
      if i > 0 { NormalPartsMembers(parts[1..], i - 1); }
    } else {
      NormalPartsMembers(parts[1..], i);
    }
  }

  /** A bare name that is a normal component is its own file name. */
  lemma FileNameOfBareName(name: string)
    requires '/' !in name && Normal(name) && name != ".."
    ensures FileName(name) == Some(name)
  {
    assert NormalParts([name]) == [name] + NormalParts([]);
  }

  /** Only the last component counts: a file name that is a normal
      component is the file name of the path, whatever the directories
      before it are called. */
  lemma FileNameInDirectory(directory: string, name: string)
    requires '/' !in name && Normal(name) && name != ".."
    ensures FileName(directory + "/" + name) == Some(name)
  {
    SplitAppend(directory, name, '/');
    var parts := Split(directory, '/');
    NormalPartsAppend(parts, [name]);
    assert NormalParts([name]) == [name] + NormalParts([]);
  }

  /** A file name whose only dot is its first character names a hidden
      file and has no extension. */
  predicate Hidden(name: string)
  {
    |name| > 0 && name[0] == '.' && '.' !in name[1..]
  }

  /** `ext` follows the last dot of `name`, and something precedes that
      dot. */
  predicate EndsWithExtension(name: string, ext: string)
  {
    |ext| + 2 <= |name| && name[|name| - |ext| - 1] == '.' && name[|name| - |ext|..] == ext
  }

  /** `Path::extension`: what follows the last dot of the file name, absent
      without a file name, without a dot, or when the only dot starts the
      name. */
  function Extension(path: string): (r: Option<string>)
    ensures r.None? <==> FileName(path).None? || '.' !in FileName(path).value || Hidden(FileName(path).value)
    ensures r.Some? ==> '.' !in r.value && EndsWithExtension(FileName(path).value, r.value)
  {
    match FileName(path)
    case None => None
    case Some(name) =>
      if '.' in name then
        var j := LastIndexOf(name, '.');
        if j == 0 then None
        else
          assert name[j] in name[1..] by { assert name[1..][j - 1] == name[j]; }
          Some(name[j + 1..])
      else None
  }

  /** The extension rule looks at the file name alone. */
  lemma SameFileNameSameWarning(p: string, q: string)
    requires FileName(p) == FileName(q)
    ensures ExtensionWarning(p) == ExtensionWarning(q)
  {
  }

  /** A file name made of a stem, a dot and an extension has that
      extension. */
  lemma ExtensionOfFileName(stem: string, ext: string)
    requires stem != "" && '/' !in stem
    requires '.' !in ext && '/' !in ext
    requires stem + "." + ext != ".."
    ensures Extension(stem + "." + ext) == Some(ext)
  {
    var name := stem + "." + ext;
    assert '/' !in name by {
      assert forall i :: 0 <= i < |name| ==> name[i] == if i < |stem| then stem[i] else if i == |stem| then '.' else ext[i - |stem| - 1];
    }
    assert Normal(name) by { assert |name| >= 2; }
    FileNameOfBareName(name);
    assert name[|stem|] == '.';
    var j := LastIndexOf(name, '.');
    assert name[|stem| + 1..] == ext;
    assert name[j + 1..] == ext;
  }

  /** What the command line warns about the input file. */
  datatype Warning = MissingExtension | NotYamlExtension

  /** The extension rule of `main`: a warning when the file has no
      extension, another when its extension is anything but exactly
      `yaml`. */
  function ExtensionWarning(path: string): (r: Option<Warning>)
    ensures r.None? <==> Extension(path) == Some("yaml")
    ensures r == Some(MissingExtension) <==> Extension(path).None?
  {
    match Extension(path)
    case None => Some(MissingExtension)
    case Some(ext) => if ext == "yaml" then None else Some(NotYamlExtension)
  }

  /** A `.yml` file warns. */
  lemma YmlWarns()
    ensures ExtensionWarning("input.yml") == Some(NotYamlExtension)
  {
    var name := "input" + "." + "yml";
    assert name == "input.yml";
    assert forall i :: 0 <= i < |"input"| ==> "input"[i] != '/';
    ExtensionOfFileName("input", "yml");
    assert "yml" != "yaml";
  }

  /** The extension is compared case by case: `.YAML` warns. */
  lemma UpperCaseYamlWarns()
    ensures ExtensionWarning("input.YAML") == Some(NotYamlExtension)
  {
    var name := "input" + "." + "YAML";
    assert name == "input.YAML";
    assert forall i :: 0 <= i < |"input"| ==> "input"[i] != '/';
    ExtensionOfFileName("input", "YAML");
    assert "YAML"[0] != "yaml"[0];
  }

  /** A bare name without a dot warns that the extension is missing. */
  lemma BareNameWarns()
    ensures ExtensionWarning("input") == Some(MissingExtension)
  {
    assert forall i :: 0 <= i < |"input"| ==> "input"[i] != '.' && "input"[i] != '/';
    FileNameOfBareName("input");
  }

  /** A hidden file named `.yaml` has no extension at all, so it warns. */
  lemma HiddenYamlWarns()
    ensures ExtensionWarning(".yaml") == Some(MissingExtension)
  {
    assert forall i :: 0 <= i < |".yaml"| ==> ".yaml"[i] != '/';
    FileNameOfBareName(".yaml");
    assert forall i :: 0 <= i < |".yaml"[1..]| ==> ".yaml"[1..][i] != '.';
  }

  /** A `.yaml` file does not warn. */
  lemma YamlFileAccepted()
    ensures ExtensionWarning("portfolio.yaml") == None
  {
    var name := "portfolio" + "." + "yaml";
    assert name == "portfolio.yaml";
    assert forall i :: 0 <= i < |"portfolio"| ==> "portfolio"[i] != '/';
    ExtensionOfFileName("portfolio", "yaml");
  }

  lemma YamlFileIsBareName()
    ensures '/' !in "portfolio.yaml"
  {
    assert forall i :: 0 <= i < |"portfolio.yaml"| ==> "portfolio.yaml"[i] != '/';
  }

  /** Nor does it in any directory. */
  lemma YamlFileInDirectoryAccepted(directory: string)
    ensures ExtensionWarning(directory + "/portfolio.yaml") == None
  {
    var path := directory + "/" + "portfolio.yaml";
    assert path == directory + "/portfolio.yaml";
    YamlFileAccepted();
    YamlFileIsBareName();
    FileNameInDirectory(directory, "portfolio.yaml");
    FileNameOfBareName("portfolio.yaml");
    SameFileNameSameWarning(path, "portfolio.yaml");
  }

  /** A directory named like a YAML file does not lend its extension to a
      file without one. */
  lemma YamlDirectoryDoesNotCount()
    ensures ExtensionWarning("inputs.yaml/input") == Some(MissingExtension)
  {
    assert forall i :: 0 <= i < |"input"| ==> "input"[i] != '.' && "input"[i] != '/';
    FileNameInDirectory("inputs.yaml", "input");
    assert "inputs.yaml/input" == "inputs.yaml" + "/" + "input";
  }

  /** What `main` does, in order. */
  datatype Step = Warn(warning: Warning) | ReadFile(path: string) | Perform(action: Action)

  /** `main` either stops at an action word the parser rejects or takes its
      steps. */
  datatype Run = Rejected(kind: ErrorKind) | Ran(steps: seq<Step>)

  /** `main` after logging is set up: the arguments are parsed first; the
      extension warning, when there is one, is only logged, and the file is
      read and the action performed in any case. Reading the file and the
      actions themselves are not modelled. */
  function Main(action: string, path: string): (r: Run)
    ensures ParseAction(action).Failed? ==> r == Rejected(InvalidInput)
    ensures ParseAction(action).Parsed? ==> (r.Ran? && 2 <= |r.steps| <= 3 &&
      r.steps[|r.steps| - 2..] == [ReadFile(path), Perform(ParseAction(action).action)])
    ensures r.Ran? ==> (|r.steps| == 3 <==> ExtensionWarning(path).Some?)
    ensures r.Ran? && ExtensionWarning(path).Some? ==> r.steps[0] == Warn(ExtensionWarning(path).value)
  {
    match ParseAction(action)
    case Failed(kind) => Rejected(kind)
    case Parsed(a) =>
      var warnings := match ExtensionWarning(path) case Some(w) => [Warn(w)] case None => [];
      Ran(warnings + [ReadFile(path), Perform(a)])
  }
}
