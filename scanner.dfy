/** `ProjectScanner.get_shape_suggestion`: the shape suggested for a file or
    directory name: directories are soft boxes, database files cylinders,
    service-like names boxes and user-like names soft boxes. */
module Scanner {
  import opened PyText

  const DB_EXTENSIONS: seq<string> := [".SQL", ".DB", ".SQLITE"]
  const SERVICE_KEYS: seq<string> := ["CONTROLLER", "SERVICE", "MANAGER"]
  const ENTITY_KEYS: seq<string> := ["USER", "CLIENT", "AUTH"]

  /** `s.rfind(c)`: the index of the last `c` in `s`, or -1 when there is none. */
  function RFind(s: string, c: char): (r: int)
    ensures -1 <= r < |s|
    ensures r >= 0 ==> s[r] == c
    ensures forall j :: r < j < |s| ==> s[j] != c
    decreases |s|
  {
    if s == [] then -1
    else if s[|s| - 1] == c then |s| - 1
    else RFind(s[..|s| - 1], c)
  }

  /** `posixpath.splitext(p)`: the extension starts at the last dot of the
      last path component, provided something other than dots precedes it in
      that component (so `.bashrc` has no extension). */
  function SplitExt(p: string): (r: (string, string))
    ensures r.0 + r.1 == p
    ensures r.1 == [] || (r.1[0] == '.' && '.' !in r.1[1..] && '/' !in r.1)
  {
    var sepIndex := RFind(p, '/');
    var dotIndex := RFind(p, '.');
    if dotIndex > sepIndex && exists k :: sepIndex + 1 <= k < dotIndex && p[k] != '.' then
      (p[..dotIndex], p[dotIndex..])
    else
      (p, [])
  }

  /** `get_shape_suggestion(filename, is_dir)`. */
  function GetShapeSuggestion(filename: string, isDir: bool): string
  {
    if isDir then "SOFTBOX"
    else
      var u := Upper(filename);
      var ext := SplitExt(u).1;
      if ext in DB_EXTENSIONS then "CYLINDER"
      else if ContainsAny(u, SERVICE_KEYS) then "BOX"
      else if ContainsAny(u, ENTITY_KEYS) then "SOFTBOX"
      else "BOX"
  }

  // ---------------------------------------------------------------------------
  // Properties.

  /** The suggestion is always one of the three names, and each one is chosen
      exactly when its tests, taken in order, say so. */
  lemma {:induction false} SuggestionCases(filename: string, isDir: bool)
    ensures var r := GetShapeSuggestion(filename, isDir);
      var u := Upper(filename); var db := SplitExt(u).1 in DB_EXTENSIONS;
      (r == "BOX" || r == "SOFTBOX" || r == "CYLINDER") &&
      (r == "CYLINDER" <==> !isDir && db) &&
      (r == "SOFTBOX" <==> isDir || (!db && !ContainsAny(u, SERVICE_KEYS) && ContainsAny(u, ENTITY_KEYS))) &&
      (r == "BOX" <==> !isDir && !db && (ContainsAny(u, SERVICE_KEYS) || !ContainsAny(u, ENTITY_KEYS)))
  {
  }

  /** The name is upper-cased before every test, so case does not matter. */
  lemma {:induction false} SuggestionIgnoresCase(filename: string, isDir: bool)
    ensures GetShapeSuggestion(Upper(filename), isDir) == GetShapeSuggestion(filename, isDir)
  {
    UpperIdempotent(filename);
  }

  lemma {:induction false} UpperAppend(a: string, b: string)
    ensures Upper(a + b) == Upper(a) + Upper(b)
    decreases |a|
  {
    if a == [] {
      assert a + b == b;
    } else {
      assert (a + b)[0] == a[0];
      assert (a + b)[1..] == a[1..] + b;
      UpperAppend(a[1..], b);
    }
  }

  /** A name without lower-case letters is its own upper case. */
  lemma {:induction false} UpperFixed(s: string)
    requires forall i :: 0 <= i < |s| ==> !('a' <= s[i] <= 'z')
    ensures Upper(s) == s
  {
  }

  /** `splitext` undoes appending an extension to a stem whose last character
      is neither a dot nor a separator. */
  lemma {:induction false} SplitExtAppend(stem: string, ext: string)
    requires stem != [] && stem[|stem| - 1] != '.' && stem[|stem| - 1] != '/'
    requires ext != [] && ext[0] == '.' && '.' !in ext[1..] && '/' !in ext
    ensures SplitExt(stem + ext) == (stem, ext)
  {
    var p := stem + ext;
    var sepIndex := RFind(p, '/');
    var dotIndex := RFind(p, '.');
    assert p[|stem|] == '.';
    forall j | |stem| < j < |p| ensures p[j] != '.' {
      assert p[j] == ext[1..][j - |stem| - 1];
    }
    assert dotIndex == |stem|;
    forall j | |stem| <= j < |p| ensures p[j] != '/' {
      assert p[j] == ext[j - |stem|];
    }
    assert p[|stem| - 1] == stem[|stem| - 1];
    assert sepIndex < |stem| - 1;
    assert p[|stem| - 1] != '.';
    assert p[..dotIndex] == stem;
    assert p[dotIndex..] == ext;
  }

  lemma {:induction false} DbExtensionShape(e: string)
    requires e in DB_EXTENSIONS
    ensures e != [] && e[0] == '.' && '.' !in e[1..] && '/' !in e
  {
  }

  /** A file whose extension is `.sql`, `.db` or `.sqlite`, in any case, is a
      cylinder whatever its stem says (`user_service.sql` included). */
  lemma {:induction false} DatabaseFileIsCylinder(stem: string, ext: string)
    requires stem != [] && stem[|stem| - 1] != '.' && stem[|stem| - 1] != '/'
    requires Upper(ext) in DB_EXTENSIONS
    ensures GetShapeSuggestion(stem + ext, false) == "CYLINDER"
  {
    UpperAppend(stem, ext);
    var us := Upper(stem);
    var ue := Upper(ext);
    assert us[|us| - 1] == UpperChar(stem[|stem| - 1]);
    DbExtensionShape(ue);
    SplitExtAppend(us, ue);
  }

  /** Without a dot there is no extension. */
  lemma {:induction false} SplitExtNoDot(p: string)
    requires '.' !in p
    ensures SplitExt(p) == (p, [])
  {
  }

  lemma {:induction false} UpperNoDot(s: string)
    requires '.' !in s
    ensures '.' !in Upper(s)
  {
    forall i | 0 <= i < |s| ensures Upper(s)[i] != '.' {
    }
  }

  /** The service keywords are tested before the user keywords: a name without
      an extension that holds both (`user_service`) is a box. */
  lemma {:induction false} ServiceBeforeUser(name: string)
    requires '.' !in name
    requires ContainsAny(Upper(name), ENTITY_KEYS) && ContainsAny(Upper(name), SERVICE_KEYS)
    ensures GetShapeSuggestion(name, false) == "BOX"
  {
    UpperNoDot(name);
    SplitExtNoDot(Upper(name));
  }

  /** Without a service keyword, a user keyword makes a soft box. */
  lemma {:induction false} UserIsSoftBox(name: string)
    requires '.' !in name
    requires ContainsAny(Upper(name), ENTITY_KEYS) && !ContainsAny(Upper(name), SERVICE_KEYS)
    ensures GetShapeSuggestion(name, false) == "SOFTBOX"
  {
    UpperNoDot(name);
    SplitExtNoDot(Upper(name));
  }
}
