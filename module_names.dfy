/**
 * `file_to_module_name`: the name under which a script is imported, from
 * its path relative to the first entry of `sys.path`. Both library modules
 * use the same code.
 */
module ModuleNames {

  import opened Wrappers
  import opened Strings

  /** The two assertions the function makes. */
  datatype NameError = FileMissing | NotPython

  const PyExtension := ".py"

  /**
   * The module name of the script at `relative`: the file must exist and the
   * path must end in `.py` in any case; the name is the path without its last
   * three characters, with every path separator `sep` turned into a dot.
   * Resolving the absolute and relative paths is left to the caller, who
   * also says whether the file exists.
   */
  function FileToModuleName(relative: string, sep: char, exists_: bool): (r: Result<string, NameError>)
    ensures r.Ok? <==> exists_ && EndsWith(Lower(relative), PyExtension)
    ensures r.Ok? ==> |r.value| == |relative| - 3
  {
    if !exists_ then Err(FileMissing)
    else if !EndsWith(Lower(relative), PyExtension) then Err(NotPython)
    else Ok(ReplaceChar(relative[..|relative| - 3], sep, '.'))
  }

  /**
   * The name keeps every character of the path before the extension, except
   * that separators become dots; no separator is left, and where the path had
   * no dot of its own, turning the dots back into separators gives the path
   * without its extension.
   */
  lemma ModuleNameChars(relative: string, sep: char)
    requires EndsWith(Lower(relative), PyExtension)
    ensures var n := FileToModuleName(relative, sep, true).value;
      && (forall i :: 0 <= i < |n| ==> n[i] == if relative[i] == sep then '.' else relative[i])
      && (sep != '.' ==> sep !in n)
      && ('.' !in relative[..|relative| - 3] ==> ReplaceChar(n, '.', sep) == relative[..|relative| - 3])
  {
    var stem := relative[..|relative| - 3];
    var n := FileToModuleName(relative, sep, true).value;
    assert n == ReplaceChar(stem, sep, '.');
    if '.' !in stem {
      ReplaceCharBack(stem, sep, '.');
    }
    forall i | 0 <= i < |n| ensures n[i] == if relative[i] == sep then '.' else relative[i] {
      assert stem[i] == relative[i];
    }
  }

  /** The extension is recognised in upper or mixed case as well. */
  lemma UpperExtension(stem: string)
    ensures FileToModuleName(stem + ".PY", '/', true) == FileToModuleName(stem + ".py", '/', true)
  {
    var a, b := stem + ".PY", stem + ".py";
    assert Lower(a)[|a| - 3..] == ".py";
    assert Lower(b)[|b| - 3..] == ".py";
    assert a[..|a| - 3] == stem && b[..|b| - 3] == stem;
  }

  /** The script of the `subpkg.mainmain` test project; the path is a parameter only to keep the proof cheap. */
  lemma SubpackageExample(relative: string)
    requires relative == "subpkg/mainmain.py"
    ensures FileToModuleName(relative, '/', true) == Ok("subpkg.mainmain")
  {
    assert Lower(relative)[|relative| - 3..] == ".py";
    assert relative[..|relative| - 3] == "subpkg/mainmain";
    assert ReplaceChar("subpkg/mainmain", '/', '.') == "subpkg.mainmain";
  }

  /** A path that is not a Python file, or a missing file, gives no name. */
  lemma NotAScript(relative: string, sep: char)
    requires !EndsWith(Lower(relative), PyExtension)
    ensures FileToModuleName(relative, sep, true) == Err(NotPython)
    ensures FileToModuleName(relative, sep, false) == Err(FileMissing)
  {
  }
}
