// The class scaffolding script (newclass.py): for a class name it writes
// "<lower>.hpp" and "<lower>.cpp" into a directory, each only if no such file
// exists yet, and reports what it did. The filesystem is a map from path to
// contents; the printed lines are appended to `output`.
module NewClass {
  import opened Strings

  const Pragma: string := "#pragma once"
  /** The header template up to the first use of the class name. */
  const HeaderOpen: string := Pragma + "\n        \n#include <memory>\n\nnamespace vulkan {\n    class "

  /** The header template after the first use of the class name. */
  function HeaderRest(c: string): string
  {
    " {\n    public:\n        " + c + "() = default;\n        ~" + c + "() = default;\n        "
    + c + "(" + c + "&&) = delete;\n        " + c + "(const " + c + "&) = delete;\n    private:\n\n    };\n}"
  }

  /** The header text: a class `c` in namespace vulkan with a defaulted
      constructor and destructor and deleted move and copy constructors. */
  function HeaderText(c: string): string
  {
    HeaderOpen + c + HeaderRest(c)
  }

  const ImplOpen: string := "#include \""
  const ImplClose: string := ".hpp\"\n\nnamespace vulkan {\n    \n}"

  /** The implementation text: an include of the lower-cased header and an
      empty namespace vulkan block. */
  function ImplText(c: string): string
  {
    ImplOpen + Lower(c) + ImplClose
  }

  function HeaderPath(dir: string, c: string): string { dir + Lower(c) + ".hpp" }
  function ImplPath(dir: string, c: string): string { dir + Lower(c) + ".cpp" }

  /** `open(filename, 'w').write(text)` guarded by `os.path.isfile`. */
  function WriteIfAbsent(fs: map<string, string>, f: string, text: string): map<string, string>
  {
    if f in fs then fs else fs[f := text]
  }

  /** The files after the top-level invocation with argument `c`. */
  function RunFiles(fs: map<string, string>, c: string): map<string, string>
  {
    WriteIfAbsent(WriteIfAbsent(fs, HeaderPath("./", c), HeaderText(c)), ImplPath("./", c), ImplText(c))
  }

  /** The header message of `write_header`. */
  function HeaderMessage(fs: map<string, string>, f: string): string
  {
    if f in fs then "header already exists at " + f else "wrote header " + f
  }

  /** The impl message of `write_impl`. */
  function ImplMessage(fs: map<string, string>, f: string): string
  {
    if f in fs then "impl already exists at " + f else "wrote impl " + f
  }

  /** The header text starts with the pragma and names the class right after
      the opening, so the class name is recovered from it: distinct names give
      distinct headers. */
  lemma HeaderTextInjective(a: string, b: string)
    ensures StartsWith(HeaderText(a), Pragma)
    ensures HeaderText(a)[|HeaderOpen|..|HeaderOpen| + |a|] == a
    ensures HeaderText(a) == HeaderText(b) ==> a == b
  {
    assert HeaderText(a)[..|HeaderOpen|] == HeaderOpen;
    assert HeaderOpen[..|Pragma|] == Pragma;
    assert |HeaderRest(a)| == |HeaderRest("")| + 6 * |a|;
    assert |HeaderRest(b)| == |HeaderRest("")| + 6 * |b|;
    assert (HeaderOpen + a + HeaderRest(a))[|HeaderOpen|..|HeaderOpen| + |a|] == a;
    assert (HeaderOpen + b + HeaderRest(b))[|HeaderOpen|..|HeaderOpen| + |b|] == b;
  }

  /** The implementation depends on the class name only through its lower-case
      form. */
  lemma ImplTextLower(a: string, b: string)
    ensures ImplText(a) == ImplText(b) <==> Lower(a) == Lower(b)
  {
    if ImplText(a) == ImplText(b) {
      assert |Lower(a)| == |Lower(b)|;
      assert Lower(a) == ImplText(a)[|ImplOpen|..|ImplOpen| + |Lower(a)|];
      assert Lower(b) == ImplText(b)[|ImplOpen|..|ImplOpen| + |Lower(b)|];
    }
  }

  /** Header and implementation paths never coincide. */
  lemma PathsDiffer(dir: string, c: string)
    ensures HeaderPath(dir, c) != ImplPath(dir, c)
  {
    var n := |dir + Lower(c)|;
    assert HeaderPath(dir, c)[n + 1] == 'h';
    assert ImplPath(dir, c)[n + 1] == 'c';
  }

  /** A run never changes an existing file, creates exactly the two paths that
      were missing, and each new file gets its template; the implementation
      is written even when the header already existed. */
  lemma RunFilesSpec(fs: map<string, string>, c: string)
    ensures forall f :: f in fs ==> f in RunFiles(fs, c) && RunFiles(fs, c)[f] == fs[f]
    ensures RunFiles(fs, c).Keys == fs.Keys + {HeaderPath("./", c), ImplPath("./", c)}
    ensures HeaderPath("./", c) !in fs ==> RunFiles(fs, c)[HeaderPath("./", c)] == HeaderText(c)
    ensures ImplPath("./", c) !in fs ==> RunFiles(fs, c)[ImplPath("./", c)] == ImplText(c)
  {
    PathsDiffer("./", c);
  }

  /** Running twice is running once, and a second run with a name that only
      differs in case writes nothing: both go to the same two files. */
  lemma RunFilesIdempotent(fs: map<string, string>, a: string, b: string)
    requires Lower(a) == Lower(b)
    ensures RunFiles(RunFiles(fs, a), b) == RunFiles(fs, a)
  {
    PathsDiffer("./", a);
  }

  /** The script's effects: files written and lines printed. */
  class Scaffold {
    var files: map<string, string>
    var output: seq<string>

    constructor (files: map<string, string>)
      ensures this.files == files && output == []
    {
      this.files := files;
      output := [];
    }

    /** `write_header(path, classname)`. */
    method WriteHeader(path: string, classname: string)
      modifies this
      ensures files == WriteIfAbsent(old(files), HeaderPath(path, classname), HeaderText(classname))
      ensures output == old(output) + [HeaderMessage(old(files), HeaderPath(path, classname))]
    {
      var filename := path + Lower(classname) + ".hpp";
      if filename !in files {
        files := files[filename := HeaderText(classname)];
        output := output + ["wrote header " + filename];
      } else {
        output := output + ["header already exists at " + filename];
      }
    }

    /** `write_impl(path, classname)`. */
    method WriteImpl(path: string, classname: string)
      modifies this
      ensures files == WriteIfAbsent(old(files), ImplPath(path, classname), ImplText(classname))
      ensures output == old(output) + [ImplMessage(old(files), ImplPath(path, classname))]
    {
      var filename := path + Lower(classname) + ".cpp";
      if filename !in files {
        files := files[filename := ImplText(classname)];
        output := output + ["wrote impl " + filename];
      } else {
        output := output + ["impl already exists at " + filename];
      }
    }

    /** The top level: both writers in the current directory, `argv[1]` as
        the class name. */
    method Run(classname: string)
      modifies this
      ensures files == RunFiles(old(files), classname)
      ensures output == old(output) +
        [HeaderMessage(old(files), HeaderPath("./", classname)),
         ImplMessage(WriteIfAbsent(old(files), HeaderPath("./", classname), HeaderText(classname)),
                     ImplPath("./", classname))]
    {
      WriteHeader("./", classname);
      WriteImpl("./", classname);
    }
  }
}
