/** The autoloader's mapping from a fully qualified class name to the file
    that defines it, relative to the plugin directory. */
module Autoloader {
  import opened Text
  import opened Php

  /** The plugin's root namespace, with its trailing separator. */
  const RootNamespace: string := "PerfAuditPro\\"

  /** The namespace segments and class name once every occurrence of the
      root namespace is removed. */
  function Segments(className: string): (parts: seq<string>)
    ensures |parts| >= 1
    ensures forall k | 0 <= k < |parts| :: '\\' !in parts[k]
  {
    Explode('\\', Replace(className, RootNamespace, ""))
  }

  /** The last segment: the class's own name. */
  function ClassPart(className: string): string {
    var parts := Segments(className);
    parts[|parts| - 1]
  }

  /** The namespace segments before it, joined with '/'. */
  function PathPart(className: string): string {
    var parts := Segments(className);
    Implode("/", parts[..|parts| - 1])
  }

  /** `class-` + the lower-cased class name with '_' turned into '-' + `.php`. */
  function FileNameOf(name: string): string {
    "class-" + ToLower(Replace(name, "_", "-")) + ".php"
  }

  function FileName(className: string): string {
    FileNameOf(ClassPart(className))
  }

  /** The lower-cased namespace path with a trailing '/', or nothing when the
      path is empty (or the falsy "0"). */
  function Directory(className: string): string {
    var pathPart := PathPart(className);
    if Empty(Str(pathPart)) then "" else ToLower(pathPart) + "/"
  }

  /** `autoload`: the file to load for `className`, or `None` for a class
      outside the plugin's namespace. */
  function ClassFilePath(className: string): (path: Option<string>)
    ensures path.None? <==> !StartsWith(className, RootNamespace)
    ensures path.Some? ==> path.value == "includes/" + Directory(className) + FileName(className)
  {
    if !StartsWith(className, RootNamespace) then None
    else Some("includes/" + Directory(className) + FileName(className))
  }

  lemma NoUpperAppend(a: string, b: string)
    requires NoUpper(a) && NoUpper(b)
    ensures NoUpper(a + b)
  {
    forall c | c in a + b ensures !IsUpper(c) {
      assert c in a || c in b;
    }
  }

  /** The file name has no upper-case letter, no namespace separator and no underscore. */
  lemma FileNameShape(className: string)
    ensures NoUpper(FileName(className))
    ensures '\\' !in FileName(className) && '_' !in FileName(className)
  {
    assert FileName(className) == "class-" + ToLower(Replace(ClassPart(className), "_", "-")) + ".php";
    var dashed := Replace(ClassPart(className), "_", "-");
    var lowered := ToLower(dashed);
    LowerHasNoUpper(dashed);
    NoUpperAppend("class-", lowered);
    NoUpperAppend("class-" + lowered, ".php");
    ReplaceKeepsAbsent(ClassPart(className), "_", "-", '\\');
    LowerKeepsAbsent(dashed, '\\');
    ReplaceCharRemoves(ClassPart(className), '_', "-");
    LowerKeepsAbsent(dashed, '_');
  }

  /** The directory is empty or ends in '/', with no upper-case letter and no
      namespace separator. */
  lemma DirectoryShape(className: string)
    ensures NoUpper(Directory(className)) && '\\' !in Directory(className)
    ensures Directory(className) == [] || Directory(className)[|Directory(className)| - 1] == '/'
  {
    var parts := Segments(className);
    var pathPart := PathPart(className);
    if !Empty(Str(pathPart)) {
      LowerHasNoUpper(pathPart);
      NoUpperAppend(ToLower(pathPart), "/");
      ImplodeKeepsAbsent("/", parts[..|parts| - 1], '\\');
      LowerKeepsAbsent(pathPart, '\\');
    }
  }

  /** Every path lies under `includes/`, ends in `.php`, and has no
      upper-case letter and no namespace separator. */
  lemma PathShape(className: string)
    requires StartsWith(className, RootNamespace)
    ensures var path := ClassFilePath(className).value;
      && StartsWith(path, "includes/")
      && path[|path| - 4..] == ".php"
      && NoUpper(path)
      && '\\' !in path
  {
    var dir := Directory(className);
    var file := FileName(className);
    var path := "includes/" + dir + file;
    FileNameShape(className);
    DirectoryShape(className);
    assert path[..9] == "includes/";
    assert file[|file| - 4..] == ".php";
    assert path[|path| - 4..] == file[|file| - 4..];
    NoUpperAppend("includes/", dir);
    NoUpperAppend("includes/" + dir, file);
  }

  /** The name a namespace segment would have to end with for a root
      namespace occurrence to straddle the separator after it. */
  predicate EndsWithRootName(ns: string) {
    |ns| >= 12 && ns[|ns| - 12..] == "PerfAuditPro"
  }

  /** No occurrence of the root namespace starts inside a segment or at the
      separator that ends it. */
  lemma NoRootBeforeSeparator(ns: string, rest: string)
    requires '\\' !in ns && !EndsWithRootName(ns)
    ensures forall i | 0 <= i < |ns| + 1 :: !OccursAt(ns + "\\" + rest, i, RootNamespace)
  {
    var s := ns + "\\" + rest;
    var r := RootNamespace;
    assert |r| == 13 && r[12] == '\\' && r[0] == 'P';
    assert '\\' !in r[..12];
    forall i | 0 <= i < |ns| + 1 ensures !OccursAt(s, i, r) {
      if i + 13 <= |s| {
        var w := s[i..i + 13];
        if i + 12 < |ns| {
          assert w[12] == ns[i + 12];
          assert w[12] != r[12];
        } else if i + 12 > |ns| {
          var k := |ns| - i;
          assert w[k] == '\\';
          assert r[..12][k] == r[k];
          assert w[k] != r[k];
        } else {
          assert w[..12] == ns[|ns| - 12..];
          assert w[..12] != r[..12];
        }
      }
    }
  }

  /** Splitting `ns\name` at its one separator gives the two segments. */
  lemma ExplodeTwo(ns: string, name: string)
    requires '\\' !in ns && '\\' !in name
    ensures Explode('\\', ns + "\\" + name) == [ns, name]
  {
    var s := ns + "\\" + name;
    var i := FirstIndex(s, '\\');
    assert s[..i] == ns && s[i + 1..] == name;
  }

  /** Removing the root namespace from `PerfAuditPro\name`. */
  lemma StripRoot(name: string)
    requires '\\' !in name
    ensures Replace(RootNamespace + name, RootNamespace, "") == name
  {
    ReplaceAtStart(RootNamespace, name, "");
    NoOccurrenceWithout(name, RootNamespace, '\\');
    ReplaceNoOccurrence(name, RootNamespace, "");
  }

  /** Removing the root namespace from `PerfAuditPro\ns\rest` keeps `ns\`
      and goes on in `rest`. */
  lemma StripNamespaced(ns: string, rest: string)
    requires '\\' !in ns && !EndsWithRootName(ns)
    ensures Replace(RootNamespace + ns + "\\" + rest, RootNamespace, "") == ns + "\\" + Replace(rest, RootNamespace, "")
  {
    assert RootNamespace + ns + "\\" + rest == RootNamespace + ((ns + "\\") + rest);
    ReplaceAtStart(RootNamespace, (ns + "\\") + rest, "");
    NoRootBeforeSeparator(ns, rest);
    ReplaceSkips(ns + "\\", rest, RootNamespace, "");
  }

  /** A class directly in the root namespace has no directory:
      `PerfAuditPro\Autoloader` maps to `includes/class-autoloader.php`. */
  lemma RootClassPath(name: string)
    requires '\\' !in name
    ensures ClassFilePath(RootNamespace + name) == Some("includes/" + FileNameOf(name))
  {
    var c := RootNamespace + name;
    assert StartsWith(c, RootNamespace) by {
      assert c[..|RootNamespace|] == RootNamespace;
    }
    StripRoot(name);
    assert Segments(c) == [name];
    assert PathPart(c) == "";
    assert Directory(c) == "";
    assert FileName(c) == FileNameOf(name);
    assert "includes/" + Directory(c) + FileName(c) == "includes/" + FileNameOf(name);
  }

  /** The segments of a class one namespace down. */
  lemma {:induction false} NamespacedSegments(ns: string, name: string)
    requires '\\' !in ns && '\\' !in name && !EndsWithRootName(ns)
    ensures Segments(RootNamespace + ns + "\\" + name) == [ns, name]
  {
    StripNamespaced(ns, name);
    NoOccurrenceWithout(name, RootNamespace, '\\');
    ReplaceNoOccurrence(name, RootNamespace, "");
    ExplodeTwo(ns, name);
  }

  /** A class one namespace down maps into that namespace's lower-cased
      directory: `PerfAuditPro\API\Rest_API` maps to
      `includes/api/class-rest-api.php`. */
  lemma {:induction false} NamespacedClassPath(ns: string, name: string)
    requires '\\' !in ns && '\\' !in name && !EndsWithRootName(ns)
    requires !Empty(Str(ns))
    ensures ClassFilePath(RootNamespace + ns + "\\" + name) == Some("includes/" + ToLower(ns) + "/" + FileNameOf(name))
  {
    var c := RootNamespace + ns + "\\" + name;
    assert StartsWith(c, RootNamespace) by {
      assert c[..|RootNamespace|] == RootNamespace;
    }
    NamespacedSegments(ns, name);
    assert Segments(c)[..1] == [ns];
    assert PathPart(c) == ns;
    assert Directory(c) == ToLower(ns) + "/";
    assert FileName(c) == FileNameOf(name);
    assert "includes/" + Directory(c) + FileName(c) == "includes/" + ToLower(ns) + "/" + FileNameOf(name);
  }

  /** Every occurrence of the root namespace is removed, not only the
      leading one: repeating it before the class name changes nothing. */
  lemma RepeatedRootNamespace(ns: string, name: string)
    requires '\\' !in ns && '\\' !in name && !EndsWithRootName(ns)
    ensures ClassFilePath(RootNamespace + ns + "\\" + RootNamespace + name)
      == ClassFilePath(RootNamespace + ns + "\\" + name)
  {
    var c1 := RootNamespace + ns + "\\" + RootNamespace + name;
    var c2 := RootNamespace + ns + "\\" + name;
    assert StartsWith(c1, RootNamespace) by {
      assert c1[..|RootNamespace|] == RootNamespace;
    }
    assert StartsWith(c2, RootNamespace) by {
      assert c2[..|RootNamespace|] == RootNamespace;
    }
    assert c1 == RootNamespace + ns + "\\" + (RootNamespace + name);
    StripNamespaced(ns, RootNamespace + name);
    StripNamespaced(ns, name);
    StripRoot(name);
    NoOccurrenceWithout(name, RootNamespace, '\\');
    ReplaceNoOccurrence(name, RootNamespace, "");
    assert Replace(c1, RootNamespace, "") == Replace(c2, RootNamespace, "");
  }

  /** Replacing the one underscore of `a_b`. */
  lemma DashOneUnderscore(a: string, b: string)
    requires '_' !in a && '_' !in b
    ensures Replace(a + "_" + b, "_", "-") == a + "-" + b
  {
    assert a + "_" + b == a + ("_" + b);
    forall i | 0 <= i < |a| ensures !OccursAt(a + ("_" + b), i, "_") {
      assert (a + ("_" + b))[i..i + 1] == [a[i]];
    }
    ReplaceSkips(a, "_" + b, "_", "-");
    ReplaceAtStart("_", b, "-");
    NoOccurrenceWithout(b, "_", '_');
    ReplaceNoOccurrence(b, "_", "-");
  }

  lemma LowerRestApi()
    ensures ToLower("Rest-API") == "rest-api"
  {
    var l := ToLower("Rest-API");
    forall i | 0 <= i < 8 ensures l[i] == "rest-api"[i] {
    }
  }

  /** The file-name part of `Rest_API`. */
  lemma RestApiFileName()
    ensures FileNameOf("Rest_API") == "class-rest-api.php"
  {
    DashOneUnderscore("Rest", "API");
    assert "Rest" + "_" + "API" == "Rest_API";
    assert "Rest" + "-" + "API" == "Rest-API";
    LowerRestApi();
  }
}
