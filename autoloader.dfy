/** The plugin's class autoloader: which class files it tries to load for a
    class name, where, and in which order. The filesystem is an oracle
    (`readable` answers `is_readable`), and loading a file is recorded in a log
    of the paths offered to `load_file` and in the set of included files. */
module Autoloader {

  import opened Php

  // ---------------------------------------------------------------------------
  // Class name to file name

  /** `strtolower` on one character: ASCII letters only. */
  function LowerChar(c: char): char
  {
    if 'A' <= c <= 'Z' then (c as int + 32) as char else c
  }

  function Lower(s: string): string
  {
    seq(|s|, i requires 0 <= i < |s| => LowerChar(s[i]))
  }

  /** Two class names that differ at most in the case of their letters. */
  predicate EqualIgnoringCase(a: string, b: string)
  {
    |a| == |b| && forall i :: 0 <= i < |a| ==> LowerChar(a[i]) == LowerChar(b[i])
  }

  /** `str_replace` of one character by another. */
  function ReplaceChar(s: string, from: char, to: char): (r: string)
    ensures |r| == |s|
    ensures from != to ==> from !in r
  {
    if s == [] then [] else [if s[0] == from then to else s[0]] + ReplaceChar(s[1..], from, to)
  }

  lemma {:induction false} ReplaceCharAt(s: string, from: char, to: char, k: nat)
    requires k < |s|
    ensures ReplaceChar(s, from, to)[k] == if s[k] == from then to else s[k]
  {
    if k > 0 {
      ReplaceCharAt(s[1..], from, to, k - 1);
    }
  }

  /** Replacing back undoes a replacement when the target character did not
      occur in the original. */
  lemma {:induction false} ReplaceCharUndone(s: string, from: char, to: char)
    requires to !in s
    ensures ReplaceChar(ReplaceChar(s, from, to), to, from) == s
  {
    if s != [] {
      assert to !in s[1..] by {
        assert forall c :: c in s[1..] ==> c in s;
      }
      ReplaceCharUndone(s[1..], from, to);
    }
  }

  /** The file that holds a class: "class-", the name with `_` turned into `-`,
      then ".php". */
  function FileNameFromClass(cls: string): (r: string)
    ensures |r| == |cls| + 10
    ensures '_' !in r
    ensures StartsWith(r, "class-") && r[|r| - 4..] == ".php"
  {
    var name := ReplaceChar(cls, '_', '-');
    assert ("class-" + name)[..6] == "class-";
    "class-" + name + ".php"
  }

  /** The class name a file name was made from. */
  function ClassFromFileName(file: string): string
    requires |file| >= 10
  {
    ReplaceChar(file[6..|file| - 4], '-', '_')
  }

  /** The file name determines the class, for every name PHP allows (no `-`). */
  lemma FileNameRoundTrip(cls: string)
    requires '-' !in cls
    ensures ClassFromFileName(FileNameFromClass(cls)) == cls
  {
    var file := FileNameFromClass(cls);
    assert file[6..|file| - 4] == ReplaceChar(cls, '_', '-');
    ReplaceCharUndone(cls, '_', '-');
  }

  // ---------------------------------------------------------------------------
  // Which paths are tried

  /** The subdirectory tried first for a lower-cased plugin class name. */
  function SubDirectory(cls: string): Option<string>
  {
    if StartsWith(cls, "wc_csp_condition") then Some("conditions/")
    else if StartsWith(cls, "wc_csp_restrict") then Some("restrictions/")
    else None
  }

  /** `load_file` succeeds: the path is non-empty (truthy) and readable. */
  predicate Loadable(path: string, readable: string -> bool)
  {
    TruthyString(path) && readable(path)
  }

  /** The paths `autoload` offers to `load_file`, in order. */
  function AttemptedPaths(includePath: string, cls: string, readable: string -> bool): seq<string>
  {
    var lower := Lower(cls);
    if !StartsWith(lower, "wc_csp") then []
    else
      var file := FileNameFromClass(lower);
      match SubDirectory(lower)
      case None => [includePath + file]
      case Some(dir) =>
        if Loadable(includePath + dir + file, readable) then [includePath + dir + file]
        else [includePath + dir + file, includePath + file]
  }

  /** The files a sequence of attempts includes. */
  function Loaded(paths: seq<string>, readable: string -> bool): set<string>
  {
    set p | p in paths && Loadable(p, readable)
  }

  // ---------------------------------------------------------------------------
  // The autoloader object

  class ClassAutoloader {

    /** Path to the includes directory. */
    var includePath: string

    /** Every path offered to `load_file`, in order. */
    ghost var tried: seq<string>

    /** The files included so far (`include_once`). */
    ghost var included: set<string>

    /** `plugin_path()` of the main plugin object is a parameter. */
    constructor (pluginPath: string)
      ensures includePath == pluginPath + "/includes/"
      ensures tried == [] && included == {}
    {
      includePath := pluginPath + "/includes/";
      tried := [];
      included := {};
    }

    /** Includes the file when the path is non-empty and readable. */
    method LoadFile(path: string, readable: string -> bool) returns (ok: bool)
      modifies this`tried, this`included
      ensures ok == Loadable(path, readable)
      ensures tried == old(tried) + [path]
      ensures included == if ok then old(included) + {path} else old(included)
    {
      tried := tried + [path];
      if TruthyString(path) && readable(path) {
        included := included + {path};
        return true;
      }
      return false;
    }

    /** Loads the class file: ignores names outside the plugin, tries the
        subdirectory chosen by prefix first, and the includes root last. */
    method Autoload(cls: string, readable: string -> bool)
      modifies this`tried, this`included
      ensures tried == old(tried) + AttemptedPaths(includePath, cls, readable)
      ensures included == old(included) + Loaded(AttemptedPaths(includePath, cls, readable), readable)
    {
      var lower := Lower(cls);
      if !StartsWith(lower, "wc_csp") {
        return;
      }
      var file := FileNameFromClass(lower);
      var path := "";
      if StartsWith(lower, "wc_csp_condition") {
        path := includePath + "conditions/";
      } else if StartsWith(lower, "wc_csp_restrict") {
        path := includePath + "restrictions/";
      }
      var loaded := false;
      if path != "" {
        loaded := LoadFile(path + file, readable);
      }
      if path == "" || !loaded {
        loaded := LoadFile(includePath + file, readable);
      }
    }
  }

  // ---------------------------------------------------------------------------
  // Properties of the attempted paths

  /** A class whose lower-cased name does not start with `wc_csp` is left to
      other autoloaders: nothing is tried. */
  lemma NonPluginClassIgnored(includePath: string, cls: string, readable: string -> bool)
    requires !StartsWith(Lower(cls), "wc_csp")
    ensures AttemptedPaths(includePath, cls, readable) == []
  {
  }

  /** The first path tried: under `conditions/` for condition classes, under
      `restrictions/` for restriction classes, the includes root otherwise. */
  lemma SubdirectoryChoice(includePath: string, cls: string, readable: string -> bool)
    requires StartsWith(Lower(cls), "wc_csp")
    ensures var attempts, file := AttemptedPaths(includePath, cls, readable), FileNameFromClass(Lower(cls));
            attempts != [] &&
            (StartsWith(Lower(cls), "wc_csp_condition") ==> attempts[0] == includePath + "conditions/" + file) &&
            (StartsWith(Lower(cls), "wc_csp_restrict") ==> attempts[0] == includePath + "restrictions/" + file) &&
            (!StartsWith(Lower(cls), "wc_csp_condition") && !StartsWith(Lower(cls), "wc_csp_restrict") ==>
               attempts == [includePath + file])
  {
    if StartsWith(Lower(cls), "wc_csp_restrict") {
      assert !StartsWith(Lower(cls), "wc_csp_condition") by {
        assert Lower(cls)[7] == 'r';
      }
    }
  }

  /** At most two attempts; every attempt but the last fails; the last one is
      the includes root unless the subdirectory attempt succeeded. */
  lemma FallbackOrder(includePath: string, cls: string, readable: string -> bool)
    ensures var attempts, file := AttemptedPaths(includePath, cls, readable), FileNameFromClass(Lower(cls));
            |attempts| <= 2 &&
            (forall k :: 0 <= k < |attempts| - 1 ==> !Loadable(attempts[k], readable)) &&
            (attempts != [] ==> attempts[|attempts| - 1] == includePath + file ||
                                Loadable(attempts[|attempts| - 1], readable))
  {
  }

  /** At most one class file is included per call. */
  lemma AtMostOneFileLoaded(includePath: string, cls: string, readable: string -> bool)
    ensures |Loaded(AttemptedPaths(includePath, cls, readable), readable)| <= 1
  {
    var attempts := AttemptedPaths(includePath, cls, readable);
    var loaded := Loaded(attempts, readable);
    if attempts != [] {
      var last := attempts[|attempts| - 1];
      assert loaded <= {last};
      assert |{last}| == 1;
      if loaded != {} {
        assert loaded == {last};
      }
    } else {
      assert loaded == {};
    }
  }

  /** Class names that differ only in letter case are loaded from the same paths. */
  lemma CaseInsensitive(includePath: string, a: string, b: string, readable: string -> bool)
    requires EqualIgnoringCase(a, b)
    ensures AttemptedPaths(includePath, a, readable) == AttemptedPaths(includePath, b, readable)
  {
    assert Lower(a) == Lower(b);
  }
}
