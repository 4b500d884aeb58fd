/**
 * The plugin's class autoloader: a namespaced class name such as
 * `DM_Highlighted_Code_Blocks\Traits\Singleton` is mapped to a file path
 * relative to the plugin directory (`include/traits/trait-singleton.php`),
 * and that file is included when it exists.
 */
module Autoloader {
  import opened Wrappers
  import opened Strings

  const Namespace: string := "DM_Highlighted_Code_Blocks"
  const Separator: char := '\\'
  const BaseDir: string := "include/"

  /** Which directory a class name maps into, decided by its second segment. */
  datatype Kind = TraitFile | ApiFile | ClassFile

  function KindOf(segments: seq<string>): Kind {
    if |segments| > 1 && segments[1] == "Traits" then TraitFile
    else if |segments| > 1 && segments[1] == "API" then ApiFile
    else ClassFile
  }

  function Prefix(k: Kind): string {
    match k
    case TraitFile => "include/traits/trait-"
    case ApiFile => "include/classes/api/class-"
    case ClassFile => "include/classes/class-"
  }

  /**
   * The file name made from the last segment: lower-cased, ".php" appended,
   * and every underscore turned into a hyphen.
   */
  function FileName(segment: string): (r: string)
    ensures |r| == |segment| + 4
    ensures r[|segment|..] == ".php"
    ensures forall i :: 0 <= i < |segment| ==>
      r[i] == (if LowerChar(segment[i]) == '_' then '-' else LowerChar(segment[i]))
  {
    var lowered := Lower(segment) + ".php";
    var r := ReplaceChar(lowered, '_', '-');
    assert r[|segment|..] == ".php" by {
      forall i | |segment| <= i < |r| ensures r[i] == ".php"[i - |segment|] {
        assert lowered[i] == ".php"[i - |segment|];
      }
    }
    assert forall i :: 0 <= i < |segment| ==> lowered[i] == LowerChar(segment[i]);
    r
  }

  /** A file name holds no underscore and no upper-case letter. */
  lemma FileNameIsLowerHyphenated(segment: string)
    ensures forall i :: 0 <= i < |FileName(segment)| ==>
      FileName(segment)[i] != '_' && !('A' <= FileName(segment)[i] <= 'Z')
  {
  }

  /**
   * The path the autoloader computes for a class name already split into its
   * segments, stated piece by piece: the directory prefix picked by the
   * second segment, then the middle segments verbatim and with no separator
   * between them, then the file name made from the last segment. A `Traits`
   * or `API` second segment is dropped; when it is also the last segment the
   * file name is made from the empty string. A name of one segment leaves
   * only the prefix, because the first slot is overwritten after the last
   * one (the same slot) was turned into a file name.
   */
  function SegmentsPath(segments: seq<string>): Option<string>
    requires |segments| >= 1
  {
    var n := |segments|;
    var k := KindOf(segments);
    if segments[0] != Namespace then None
    else if n == 1 then Some(Prefix(ClassFile))
    else if k == ClassFile then Some(Prefix(k) + Concat(segments[1..n - 1]) + FileName(segments[n - 1]))
    else if n == 2 then Some(Prefix(k) + FileName(""))
    else Some(Prefix(k) + Concat(segments[2..n - 1]) + FileName(segments[n - 1]))
  }

  /** The relative file path for a class name, or None when the name is outside the plugin's namespace. */
  function ClassFilePath(what: string): Option<string> {
    SegmentsPath(Explode(what, Separator))
  }

  lemma {:induction false} ConcatFramed(first: string, middle: seq<string>, last: string)
    ensures Concat([first] + middle + [last]) == first + Concat(middle) + last
  {
    ConcatAppend([first] + middle, last);
    ConcatCons(first, middle);
  }

  /** The array the autoloader implodes: the exploded name with its slots rewritten. */
  function Rewritten(parts: seq<string>): (final: seq<string>)
    requires |parts| >= 1
    ensures |final| == |parts|
  {
    var n := |parts|;
    var marked := if KindOf(parts) == ClassFile then parts else parts[1 := ""];
    marked[n - 1 := FileName(marked[n - 1])][0 := Prefix(KindOf(parts))]
  }

  lemma RewrittenOf(parts: seq<string>, marked: seq<string>, baseDir: string)
    requires |parts| >= 1
    requires marked == if KindOf(parts) == ClassFile then parts else parts[1 := ""]
    requires baseDir == Prefix(KindOf(parts))
    ensures Rewritten(parts) == marked[|parts| - 1 := FileName(marked[|parts| - 1])][0 := baseDir]
  {
  }

  lemma RewrittenSingle(parts: seq<string>)
    requires |parts| == 1
    ensures Concat(Rewritten(parts)) == Prefix(ClassFile)
  {
  }

  lemma RewrittenClass(parts: seq<string>)
    requires |parts| >= 2 && KindOf(parts) == ClassFile
    ensures Concat(Rewritten(parts))
      == Prefix(ClassFile) + Concat(parts[1..|parts| - 1]) + FileName(parts[|parts| - 1])
  {
    var n := |parts|;
    assert Rewritten(parts) == [Prefix(ClassFile)] + parts[1..n - 1] + [FileName(parts[n - 1])];
    ConcatFramed(Prefix(ClassFile), parts[1..n - 1], FileName(parts[n - 1]));
  }

  lemma RewrittenShort(parts: seq<string>)
    requires |parts| == 2 && KindOf(parts) != ClassFile
    ensures Concat(Rewritten(parts)) == Prefix(KindOf(parts)) + FileName("")
  {
    var none: seq<string> := [];
    assert Rewritten(parts) == [Prefix(KindOf(parts))] + none + [FileName("")];
    ConcatFramed(Prefix(KindOf(parts)), none, FileName(""));
  }

  lemma RewrittenLong(parts: seq<string>)
    requires |parts| > 2 && KindOf(parts) != ClassFile
    ensures Concat(Rewritten(parts))
      == Prefix(KindOf(parts)) + Concat(parts[2..|parts| - 1]) + FileName(parts[|parts| - 1])
  {
    var n := |parts|;
    var k := KindOf(parts);
    assert Rewritten(parts) == [Prefix(k)] + ([""] + parts[2..n - 1]) + [FileName(parts[n - 1])];
    ConcatFramed(Prefix(k), [""] + parts[2..n - 1], FileName(parts[n - 1]));
    ConcatCons("", parts[2..n - 1]);
  }

  /** Imploding the rewritten array gives the path stated by `SegmentsPath`. */
  lemma {:induction false} RewrittenPath(parts: seq<string>)
    requires |parts| >= 1 && parts[0] == Namespace
    ensures Concat(Rewritten(parts)) == SegmentsPath(parts).value
  {
    var n := |parts|;
    var k := KindOf(parts);
    if n == 1 {
      RewrittenSingle(parts);
    } else if k == ClassFile {
      RewrittenClass(parts);
    } else if n == 2 {
      RewrittenShort(parts);
    } else {
      RewrittenLong(parts);
    }
  }

  /**
   * The in-place rewriting of the exploded name: the base directory is
   * extended by the second segment's kind (which then blanks that slot), the
   * last slot becomes a file name, and the first slot receives the base
   * directory.
   */
  method RewriteSlots(split: array<string>)
    requires split.Length >= 1
    modifies split
    ensures split[..] == Rewritten(old(split[..]))
  {
    ghost var parts := split[..];
    var baseDir := BaseDir;
    if split.Length > 1 && split[1] == "Traits" {
      baseDir := baseDir + "traits/trait-";
      assert baseDir == Prefix(TraitFile);
      split[1] := "";
    } else if split.Length > 1 && split[1] == "API" {
      baseDir := baseDir + "classes/api/class-";
      assert baseDir == Prefix(ApiFile);
      split[1] := "";
    } else {
      baseDir := baseDir + "classes/class-";
      assert baseDir == Prefix(ClassFile);
    }
    var n := split.Length;
    ghost var marked := split[..];
    assert marked == if KindOf(parts) == ClassFile then parts else parts[1 := ""];
    split[n - 1] := FileName(split[n - 1]);
    split[0] := baseDir;
    assert split[..] == marked[n - 1 := FileName(marked[n - 1])][0 := baseDir];
    RewrittenOf(parts, marked, baseDir);
  }

  /** `implode('', $split)` over the array. */
  method ImplodeSlots(split: array<string>) returns (s: string)
    ensures s == Concat(split[..])
  {
    s := "";
    for i := 0 to split.Length
      invariant s == Concat(split[..i])
    {
      assert split[..i + 1] == split[..i] + [split[i]];
      ConcatAppend(split[..i], split[i]);
      s := s + split[i];
    }
    assert split[..split.Length] == split[..];
  }

  /**
   * The autoloader's computation of the relative path: it explodes the name,
   * rewrites slots of the resulting array in place and implodes it with the
   * empty separator.
   */
  method ComputeFilePath(what: string) returns (path: Option<string>)
    ensures path == ClassFilePath(what)
  {
    var parts := Explode(what, Separator);
    if parts[0] != Namespace {
      return None;
    }
    var split := new string[|parts|](i requires 0 <= i < |parts| => parts[i]);
    assert split[..] == parts;
    RewriteSlots(split);
    var filePath := ImplodeSlots(split);
    RewrittenPath(parts);
    path := Some(filePath);
  }

  /**
   * The registered autoload callback: the file under the plugin directory is
   * included (here: returned) only when the name maps to a path and that file
   * exists.
   */
  method Autoload(what: string, pluginPath: string, fileExists: string -> bool) returns (included: Option<string>)
    ensures included.Some? <==>
      ClassFilePath(what).Some? && fileExists(pluginPath + ClassFilePath(what).value)
    ensures included.Some? ==> included.value == pluginPath + ClassFilePath(what).value
  {
    var path := ComputeFilePath(what);
    if path.Some? && fileExists(pluginPath + path.value) {
      included := Some(pluginPath + path.value);
    } else {
      included := None;
    }
  }

  // ---- Properties of the mapping ----

  lemma {:induction false} ExplodeFirst(p: string, t: string, sep: char)
    requires sep !in p
    ensures Explode(p, sep)[0] == p
    ensures Explode(p + [sep] + t, sep)[0] == p
    decreases |p|
  {
    if p == [] {
      assert [] + [sep] + t == [sep] + t;
    } else {
      ExplodeFirst(p[1..], t, sep);
      assert (p + [sep] + t)[1..] == p[1..] + [sep] + t;
      assert [p[0]] + p[1..] == p;
    }
  }

  lemma NamespaceHasNoSeparator()
    ensures Separator !in Namespace
  {
  }

  /** A name that is `p`, or starts with `p` and a separator, has `p` as its first piece. */
  lemma FirstPiece(p: string, what: string)
    requires Separator !in p
    requires what == p || StartsWith(what, p + [Separator])
    ensures Explode(what, Separator)[0] == p
  {
    if what == p {
      ExplodeFirst(p, "", Separator);
    } else {
      var t := what[|p| + 1..];
      assert what == p + [Separator] + t;
      ExplodeFirst(p, t, Separator);
    }
  }

  /** A name whose first piece is the plugin namespace maps to a path. */
  lemma FirstPieceGate(what: string)
    requires Explode(what, Separator)[0] == Namespace
    ensures ClassFilePath(what).Some?
  {
  }

  lemma NamespacedNamesMap(what: string)
    requires what == Namespace || StartsWith(what, Namespace + [Separator])
    ensures ClassFilePath(what).Some?
  {
    NamespaceHasNoSeparator();
    FirstPiece(Namespace, what);
    FirstPieceGate(what);
  }

  lemma MappedNamesAreNamespaced(what: string)
    requires ClassFilePath(what).Some?
    ensures what == Namespace || StartsWith(what, Namespace + [Separator])
  {
    var parts := Explode(what, Separator);
    ImplodeExplode(what, Separator);
    if |parts| > 1 {
      assert what == Namespace + [Separator] + Implode(parts[1..], Separator);
      assert what[..|Namespace| + 1] == Namespace + [Separator];
    }
  }

  /**
   * Exactly the names `DM_Highlighted_Code_Blocks` and `DM_Highlighted_Code_Blocks\…`
   * map to a path; every other name is ignored and nothing is included.
   */
  lemma NamespaceGate(what: string)
    ensures ClassFilePath(what).Some? <==> what == Namespace || StartsWith(what, Namespace + [Separator])
  {
    if ClassFilePath(what).Some? {
      MappedNamesAreNamespaced(what);
    }
    if what == Namespace || StartsWith(what, Namespace + [Separator]) {
      NamespacedNamesMap(what);
    }
  }

  lemma {:induction false} PathOfImploded(segments: seq<string>)
    requires |segments| >= 1
    requires forall i :: 0 <= i < |segments| ==> Separator !in segments[i]
    ensures ClassFilePath(Implode(segments, Separator)) == SegmentsPath(segments)
  {
    ExplodeImplode(segments, Separator);
  }

  /** A `Traits` second segment selects `include/traits/trait-` and contributes nothing itself. */
  lemma TraitPath(middle: seq<string>, last: string)
    ensures SegmentsPath([Namespace, "Traits"] + middle + [last])
      == Some("include/traits/trait-" + Concat(middle) + FileName(last))
  {
  }

  /** An `API` second segment selects `include/classes/api/class-` and contributes nothing itself. */
  lemma ApiPath(middle: seq<string>, last: string)
    ensures SegmentsPath([Namespace, "API"] + middle + [last])
      == Some("include/classes/api/class-" + Concat(middle) + FileName(last))
  {
  }

  /**
   * Any other second segment selects `include/classes/class-`; the middle
   * segments are kept verbatim (case included) and only the last one becomes
   * a file name.
   */
  lemma ClassPath(middle: seq<string>, last: string)
    requires var second := if middle == [] then last else middle[0]; second != "Traits" && second != "API"
    ensures SegmentsPath([Namespace] + middle + [last])
      == Some("include/classes/class-" + Concat(middle) + FileName(last))
  {
  }

  /**
   * Every produced path starts with `include/`; it ends with `.php` unless the
   * name has a single segment (the bare namespace name), whose path is just
   * the prefix.
   */
  lemma PathShape(segments: seq<string>)
    requires |segments| >= 1 && SegmentsPath(segments).Some?
    ensures StartsWith(SegmentsPath(segments).value, "include/")
    ensures |segments| >= 2 ==> EndsWith(SegmentsPath(segments).value, ".php")
    ensures |segments| == 1 ==> SegmentsPath(segments).value == "include/classes/class-"
  {
  }

  // ---- Worked examples, on the segments `explode` produces ----

  lemma SingletonFileName()
    ensures FileName("Singleton") == "singleton.php"
  {
    var r := FileName("Singleton");
    assert |r| == 13 && r[9..] == ".php";
    assert r[..9] == "singleton";
    assert r == r[..9] + r[9..];
  }

  lemma SettingsFileName()
    ensures FileName("Settings") == "settings.php"
  {
    var r := FileName("Settings");
    assert |r| == 12 && r[8..] == ".php";
    assert r[..8] == "settings";
    assert r == r[..8] + r[8..];
  }

  lemma FooBarFileName()
    ensures FileName("Foo_Bar") == "foo-bar.php"
  {
    var r := FileName("Foo_Bar");
    assert |r| == 11 && r[7..] == ".php";
    assert r[..7] == "foo-bar";
    assert r == r[..7] + r[7..];
  }

  /** `DM_Highlighted_Code_Blocks\Traits\Singleton` maps to `include/traits/trait-singleton.php`. */
  lemma SingletonExample()
    ensures SegmentsPath([Namespace, "Traits", "Singleton"]) == Some("include/traits/trait-singleton.php")
  {
    TraitPath([], "Singleton");
    assert [Namespace, "Traits"] + [] + ["Singleton"] == [Namespace, "Traits", "Singleton"];
    SingletonFileName();
    assert Concat([]) == "";
    assert "include/traits/trait-" + "" + "singleton.php" == "include/traits/trait-singleton.php";
  }

  /** `DM_Highlighted_Code_Blocks\Settings` maps to `include/classes/class-settings.php`. */
  lemma SettingsExample()
    ensures SegmentsPath([Namespace, "Settings"]) == Some("include/classes/class-settings.php")
  {
    ClassPath([], "Settings");
    assert [Namespace] + [] + ["Settings"] == [Namespace, "Settings"];
    SettingsFileName();
    assert Concat([]) == "";
    assert "include/classes/class-" + "" + "settings.php" == "include/classes/class-settings.php";
  }

  /**
   * A nested namespace keeps its middle segment verbatim and glued to the file
   * name: `DM_Highlighted_Code_Blocks\Helpers\Foo_Bar` maps to
   * `include/classes/class-Helpersfoo-bar.php`.
   */
  lemma NestedNamespaceExample()
    ensures SegmentsPath([Namespace, "Helpers", "Foo_Bar"]) == Some("include/classes/class-Helpersfoo-bar.php")
  {
    ClassPath(["Helpers"], "Foo_Bar");
    assert [Namespace] + ["Helpers"] + ["Foo_Bar"] == [Namespace, "Helpers", "Foo_Bar"];
    assert Concat(["Helpers"]) == "Helpers" by { assert ["Helpers"][..0] == []; }
    FooBarFileName();
    assert "include/classes/class-" + "Helpers" + "foo-bar.php" == "include/classes/class-Helpersfoo-bar.php";
  }

  /** The two-segment name `DM_Highlighted_Code_Blocks\Traits` maps to `include/traits/trait-.php`. */
  lemma BareTraitsExample()
    ensures SegmentsPath([Namespace, "Traits"]) == Some("include/traits/trait-.php")
  {
    assert FileName("") == ".php";
    assert "include/traits/trait-" + ".php" == "include/traits/trait-.php";
  }

  /** Names outside the plugin's namespace, such as `WP_Query`, map to nothing. */
  lemma ForeignClassExample()
    ensures ClassFilePath("WP_Query") == None
  {
  }
}
