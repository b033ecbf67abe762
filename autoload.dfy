/**
 * The class autoloader (autoload.php): a class of the Framering namespace
 * is loaded from includes/ under the plugin directory, one directory per
 * namespace segment after the first.
 */
module Autoload {
  import opened Wrappers
  import opened Strings

  /** Only class names starting with this are handled (autoload.php:10-11). */
  const FilePrefix := "Framering"

  /** PHP `substr(name, 0, 9) === "Framering"`: a shorter name yields itself, which cannot match. */
  predicate HasFilePrefix(className: string)
  {
    |className| >= |FilePrefix| && className[..|FilePrefix|] == FilePrefix
  }

  /**
   * The file the autoloader requires for a class (autoload.php:13-24), or
   * None when it returns without loading anything. `dir` is the plugin
   * directory and `sep` the directory separator.
   */
  function ClassFile(dir: string, sep: char, className: string): (r: Option<string>)
    ensures r.Some? <==> HasFilePrefix(className)
    ensures r.Some? ==> |r.value| >= |dir| + 10 + 4
    ensures r.Some? ==> r.value[..|dir| + 10] == dir + [sep] + "includes" + [sep]
    ensures r.Some? ==> r.value[|r.value| - 4..] == ".php"
  {
    if !HasFilePrefix(className) then None
    else Some(dir + [sep] + "includes" + [sep] + Join(Split(className, '\\')[1..], sep) + ".php")
  }

  /** The class name whose namespace segments after "Framering" are `parts`. */
  function ClassName(parts: seq<string>): string
  {
    Join([FilePrefix] + parts, '\\')
  }

  /** Segments free of backslashes. */
  predicate Segments(parts: seq<string>)
  {
    forall i :: 0 <= i < |parts| ==> '\\' !in parts[i]
  }

  /** A class of the Framering namespace is loaded from includes/ followed by its remaining segments. */
  lemma {:induction false} NamespaceToPath(dir: string, sep: char, parts: seq<string>)
    requires Segments(parts)
    ensures ClassFile(dir, sep, ClassName(parts)) == Some(dir + [sep] + "includes" + [sep] + Join(parts, sep) + ".php")
  {
    var all := [FilePrefix] + parts;
    assert all[1..] == parts;
    assert forall i :: 0 <= i < |all| ==> '\\' !in all[i] by {
      forall i | 0 <= i < |all|
        ensures '\\' !in all[i]
      {
        if i > 0 {
          assert all[i] == parts[i - 1];
        }
      }
    }
    SplitJoin(all, '\\');
    var name := Join(all, '\\');
    if |all| > 1 {
      assert name == FilePrefix + ['\\'] + Join(all[1..], '\\');
      assert name[..|FilePrefix|] == FilePrefix;
    } else {
      assert name == FilePrefix;
    }
  }

  /**
   * Different classes of the Framering namespace, each with at least one
   * segment after it and none containing the separator, load different files.
   */
  lemma {:induction false} DistinctClassesDistinctFiles(dir: string, sep: char, p1: seq<string>, p2: seq<string>)
    requires Segments(p1) && Segments(p2) && |p1| >= 1 && |p2| >= 1
    requires forall i :: 0 <= i < |p1| ==> sep !in p1[i]
    requires forall i :: 0 <= i < |p2| ==> sep !in p2[i]
    requires ClassFile(dir, sep, ClassName(p1)) == ClassFile(dir, sep, ClassName(p2))
    ensures p1 == p2
  {
    NamespaceToPath(dir, sep, p1);
    NamespaceToPath(dir, sep, p2);
    var pre := dir + [sep] + "includes" + [sep];
    var f1 := pre + Join(p1, sep) + ".php";
    var f2 := pre + Join(p2, sep) + ".php";
    assert f1[|pre|..|f1| - 4] == Join(p1, sep);
    assert f2[|pre|..|f2| - 4] == Join(p2, sep);
    SplitJoin(p1, sep);
    SplitJoin(p2, sep);
  }

  /** The bare namespace name and the name ending in a backslash both map to includes/.php. */
  lemma BareNamespace(dir: string, sep: char)
    ensures ClassFile(dir, sep, FilePrefix) == Some(dir + [sep] + "includes" + [sep] + ".php")
    ensures ClassFile(dir, sep, FilePrefix + ['\\']) == ClassFile(dir, sep, FilePrefix)
  {
    assert FilePrefix[..|FilePrefix|] == FilePrefix;
    assert '\\' !in FilePrefix;
    assert Split(FilePrefix, '\\') == [FilePrefix];
    var trailing := FilePrefix + ['\\'];
    assert trailing[..|FilePrefix|] == FilePrefix;
    assert Join([FilePrefix, ""], '\\') == trailing;
    SplitJoin([FilePrefix, ""], '\\');
  }

  /** Only the first nine characters are compared: FrameringX\Foo is loaded from includes/Foo.php. */
  lemma PrefixOnlyCompared(dir: string)
    ensures ClassFile(dir, '/', "FrameringX\\Foo") == Some(dir + ['/'] + "includes" + ['/'] + "Foo" + ".php")
  {
    var name := "FrameringX\\Foo";
    assert name == "FrameringX" + ['\\'] + "Foo";
    assert name[..9] == FilePrefix;
    assert '\\' !in "FrameringX";
    assert '\\' !in "Foo";
    SplitJoin(["FrameringX", "Foo"], '\\');
    assert Join(["FrameringX", "Foo"], '\\') == name;
    assert Split(name, '\\')[1..] == ["Foo"];
    assert Join(["Foo"], '/') == "Foo";
  }
}
