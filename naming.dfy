/**
 * The string rules the builder applies to a module's name and path:
 * the name, package flag and file recorded by `_data_build`, and the
 * module-name choice of `file_build`, with its fallback to the file's stem.
 * Paths follow POSIX conventions (`/` separates, `.` starts an extension).
 */
module ModuleNaming {
  import opened Wrappers
  import opened PyStrings

  const InitSuffix := ".__init__"

  /** What `_data_build` hands to the tree rebuilder besides the tree. */
  datatype Header = Header(name: string, file: string, package: bool)

  /** `path and path.find('__init__.py') > -1 or False` */
  function PackagePath(path: Option<string>): (b: bool)
    ensures b <==> path.Some? && exists k :: OccursAt(path.value, "__init__.py", k)
  {
    if path.None? || path.value == "" then false
    else FindFrom(path.value, "__init__.py", 0) > -1
  }

  /**
   * `_data_build`'s naming: a name ending in `.__init__` loses that suffix and
   * marks a package; otherwise the path decides. The file is the absolute
   * path, or `<?>` when there is no path. `abspath` stands for
   * `os.path.abspath`, which depends on the working directory.
   */
  function DataBuildHeader(modname: string, path: Option<string>, abspath: string -> string): (h: Header)
    ensures EndsWith(modname, InitSuffix) ==> h.package && h.name + InitSuffix == modname
    ensures !EndsWith(modname, InitSuffix) ==>
              h.name == modname && (h.package <==> path.Some? && exists k :: OccursAt(path.value, "__init__.py", k))
    ensures path.None? ==> h.file == "<?>"
    ensures path.Some? ==> h.file == abspath(path.value)
  {
    var file := if path.Some? then abspath(path.value) else "<?>";
    if EndsWith(modname, InitSuffix) then Header(modname[..|modname| - 9], file, true)
    else Header(modname, file, PackagePath(path))
  }

  /** `os.path.basename(path)`: what follows the last `/`. */
  function Basename(path: string): (b: string)
    ensures '/' !in b
    ensures |b| <= |path| && path[|path| - |b|..] == b
    ensures |b| == |path| || path[|path| - |b| - 1] == '/'
  {
    var i := LastIndexOf(path, '/');
    SuffixAfterLast(path, '/', i);
    var b := path[i + 1..];
    b
  }

  /** Some character before index `dot` is not a dot. */
  predicate HasNonDotBefore(s: string, dot: nat)
    requires dot <= |s|
  {
    exists k :: 0 <= k < dot && s[k] != '.'
  }

  /**
   * `os.path.splitext(name)[0]` for a name without `/`: cut before the last
   * dot, unless only dots precede it (`.bashrc` keeps its name).
   */
  function Stem(name: string): (root: string)
    ensures |root| <= |name| && name[..|root|] == root
  {
    var dot := LastIndexOf(name, '.');
    if dot >= 0 && HasNonDotBefore(name, dot) then name[..dot] else name
  }

  /** What `Stem` cuts off: the extension, starting with its dot. */
  function Extension(name: string): string
  {
    name[|Stem(name)|..]
  }

  /**
   * The two halves of `splitext` put back together give the name; an extension
   * is a dot with no further dot after it, preceded by a non-dot character.
   */
  lemma StemExtension(name: string)
    ensures Stem(name) + Extension(name) == name
    ensures Extension(name) != [] ==>
              Extension(name)[0] == '.' && '.' !in Extension(name)[1..]
              && exists k :: 0 <= k < |Stem(name)| && Stem(name)[k] != '.'
    ensures Extension(name) == [] <==>
              forall i, j :: 0 <= i < j < |name| && name[j] == '.' ==> name[i] == '.'
  {
    var dot := LastIndexOf(name, '.');
    var ext := Extension(name);
    if ext != [] {
      assert dot >= 0 && HasNonDotBefore(name, dot);
      assert ext == name[dot..];
      forall k | 0 <= k < |ext[1..]| ensures ext[1..][k] != '.' {
        assert ext[1..][k] == name[dot + 1 + k];
      }
      var k :| 0 <= k < dot && name[k] != '.';
      assert Stem(name)[k] == name[k];
    } else {
      forall i, j | 0 <= i < j < |name| && name[j] == '.' ensures name[i] == '.' {
        assert j <= dot;
        assert !HasNonDotBefore(name, dot);
      }
    }
  }

  /** `'.'.join(parts)` */
  function JoinDotted(parts: seq<string>): string
  {
    if parts == [] then ""
    else if |parts| == 1 then parts[0]
    else JoinDotted(parts[..|parts| - 1]) + "." + parts[|parts| - 1]
  }

  /** `s.split('.')`: the pieces between the dots, in order. */
  function SplitDotted(s: string): (parts: seq<string>)
    ensures parts != []
    ensures forall k :: 0 <= k < |parts| ==> '.' !in parts[k]
    decreases |s|
  {
    var i := LastIndexOf(s, '.');
    SuffixAfterLast(s, '.', i);
    if i == -1 then [s] else SplitDotted(s[..i]) + [s[i + 1..]]
  }

  /**
   * `'.'.join` of dot-free parts is undone by `split('.')`: the dotted module
   * name keeps every part of the module path, in order.
   */
  lemma {:induction false} JoinDottedSplits(parts: seq<string>)
    requires parts != []
    requires forall k :: 0 <= k < |parts| ==> '.' !in parts[k]
    ensures SplitDotted(JoinDotted(parts)) == parts
    decreases |parts|
  {
    if |parts| == 1 {
      NoDotFound(parts[0]);
    } else {
      var init, last := parts[..|parts| - 1], parts[|parts| - 1];
      var head := JoinDotted(init);
      var s := head + "." + last;
      assert JoinDotted(parts) == s;
      LastDotBeforeTail(head, last);
      assert s[..|head|] == head;
      assert s[|head| + 1..] == last;
      JoinDottedSplits(init);
      assert parts == init + [last];
    }
  }

  /** A dot-free string has no last dot. */
  lemma NoDotFound(s: string)
    requires '.' !in s
    ensures LastIndexOf(s, '.') == -1
  {
  }

  /** The dot before a dot-free tail is the last dot. */
  lemma LastDotBeforeTail(head: string, tail: string)
    requires '.' !in tail
    ensures LastIndexOf(head + "." + tail, '.') == |head|
  {
    var s := head + "." + tail;
    assert s[|head|] == '.';
  }

  /**
   * `file_build`'s module name: the explicit name when given; else the dotted
   * module path derived from the file's place under the search roots
   * (`modpath`, None when that derivation raises ImportError); else the stem
   * of the file's basename.
   */
  function FileModuleName(path: string, modname: Option<string>, modpath: Option<seq<string>>): (name: string)
    ensures modname.Some? ==> name == modname.value
    ensures modname.None? && modpath.Some? ==> name == JoinDotted(modpath.value)
    ensures modname.None? && modpath.None? ==> name == Stem(Basename(path))
    ensures modname.None? && modpath.None? ==>
              '/' !in name && exists k :: OccursAt(path, name, k)
  {
    match modname
    case Some(explicit) => explicit
    case None =>
      match modpath
      case Some(parts) => JoinDotted(parts)
      case None =>
        StemOfBasename(path);
        Stem(Basename(path))
  }

  /** The stem of the basename is a piece of the path without `/`. */
  lemma StemOfBasename(path: string)
    ensures '/' !in Stem(Basename(path)) && exists k :: OccursAt(path, Stem(Basename(path)), k)
  {
    var base := Basename(path);
    var stem := Stem(base);
    var k :| 0 <= k <= |path| && path[k..] == base;
    assert path[k..k + |stem|] == stem;
    assert OccursAt(path, stem, k);
    forall j | 0 <= j < |stem| ensures stem[j] != '/' {
      assert stem[j] == base[j];
    }
  }

  /** The fallback name is the basename without its extension. */
  lemma FallbackNameIsStem(path: string)
    ensures FileModuleName(path, None, None) + Extension(Basename(path)) == Basename(path)
  {
    StemExtension(Basename(path));
  }
}
