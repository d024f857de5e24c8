/** Built-in exclusions and .dockerignore negation hints (libs/cli/langgraph_cli/_ignore.py). */
module Ignore {
  /** A path relative to the project root, or an absolute one, as its names. */
  type Path = seq<string>

  const ALWAYS_EXCLUDED := {"__pycache__", ".git", ".venv", "venv", "node_modules", ".tox", ".mypy_cache"}

  /** Whether the path lies inside a built-in excluded directory, or is one. */
  predicate IsAlwaysExcluded(path: Path, isDir: bool) {
    exists i :: 0 <= i < (if isDir || path == [] then |path| else |path| - 1) && path[i] in ALWAYS_EXCLUDED
  }

  /** Excluded is what lies in a directory of one of these names, at any depth, and such a directory. */
  lemma ExcludedIff(path: Path, isDir: bool)
    ensures IsAlwaysExcluded(path, isDir) <==>
            exists k :: 0 < k <= |path| && (k < |path| || isDir) &&
              path[..k][k - 1] in {"__pycache__", ".git", ".venv", "venv", "node_modules", ".tox", ".mypy_cache"}
  {
    if IsAlwaysExcluded(path, isDir) {
      var i :| 0 <= i < (if isDir || path == [] then |path| else |path| - 1) && path[i] in ALWAYS_EXCLUDED;
      assert path[..i + 1][i + 1 - 1] == path[i];
    }
    if k :| 0 < k <= |path| && (k < |path| || isDir) && path[..k][k - 1] in ALWAYS_EXCLUDED {
      assert path[k - 1] in ALWAYS_EXCLUDED;
    }
  }

  datatype Hints = Hints(exactDirs: set<Path>, wildcardPrefixes: set<Path>, recurseAll: bool) {
    predicate RequiresDirWalk(path: Path) {
      || recurseAll
      || path in exactDirs
      || exists prefix :: prefix in wildcardPrefixes && (path == prefix || path < prefix || prefix < path)
    }
  }

  // ------------------------------------------------------ one line of the file

  /** What a line of .dockerignore re-includes. */
  datatype Negation = Nothing | Everything | Below(prefix: Path) | Exactly(parts: Path)

  function LStrip(strip: char -> bool, s: string): string {
    if s != [] && strip(s[0]) then LStrip(strip, s[1..]) else s
  }

  function RStrip(strip: char -> bool, s: string): string {
    if s != [] && strip(s[|s| - 1]) then RStrip(strip, s[..|s| - 1]) else s
  }

  function DropDotSlashes(s: string): string {
    if |s| >= 2 && s[0] == '.' && s[1] == '/' then DropDotSlashes(s[2..]) else s
  }

  /** `s.split("/")` with `open` as the start of the first part. */
  function Split(open: string, s: string): seq<string>
    decreases |s|
  {
    if s == [] then [open]
    else if s[0] == '/' then [open] + Split([], s[1..])
    else Split(open + [s[0]], s[1..])
  }

  function Meaningful(parts: seq<string>): Path {
    if parts == [] then []
    else (if parts[0] == "" || parts[0] == "." then [] else [parts[0]]) + Meaningful(parts[1..])
  }

  predicate IsGlob(part: string) { '*' in part || '?' in part || '[' in part }

  /** The parts before the first one with a glob character. */
  function LiteralParts(parts: Path): (r: Path)
    ensures r <= parts && (r == parts <==> forall p :: p in parts ==> !IsGlob(p))
  {
    if parts == [] || IsGlob(parts[0]) then [] else [parts[0]] + LiteralParts(parts[1..])
  }

  function PatternParts(pattern: string): Path {
    var slash := (c: char) => c == '/';
    Meaningful(Split([], RStrip(slash, DropDotSlashes(LStrip(slash, pattern)))))
  }

  function NegationOf(isSpace: char -> bool, raw: string): Negation {
    var stripped := RStrip(isSpace, LStrip(isSpace, raw));
    if stripped == "" || stripped[0] == '#' || "\\!" <= stripped then Nothing
    else
      var line := if "\\#" <= stripped then stripped[1..] else stripped;
      if line[0] != '!' then Nothing else Reincluded(PatternParts(line[1..]))
  }

  /** What a negated pattern re-includes. */
  function Reincluded(parts: Path): Negation {
    var literal := LiteralParts(parts);
    if parts == [] then Everything
    else if literal == parts then Exactly(parts)
    else if literal == [] then Everything
    else Below(literal)
  }

  // ------------------------------------------------------- what a line says

  function JoinSlash(parts: seq<string>): string {
    if parts == [] then "" else if |parts| == 1 then parts[0] else parts[0] + "/" + JoinSlash(parts[1..])
  }

  lemma {:induction false} SplitWord(open: string, word: string, rest: string)
    requires '/' !in word
    ensures Split(open, word + rest) == Split(open + word, rest)
    decreases |word|
  {
    if word == [] {
      assert word + rest == rest && open + word == open;
    } else {
      assert (word + rest)[1..] == word[1..] + rest;
      SplitWord(open + [word[0]], word[1..], rest);
      assert open + [word[0]] + word[1..] == open + word;
    }
  }

  /** Splitting undoes joining. */
  lemma {:induction false} SplitJoined(parts: seq<string>)
    requires parts != [] && forall p :: p in parts ==> '/' !in p
    ensures Split([], JoinSlash(parts)) == parts
  {
    if |parts| == 1 {
      SplitWord([], parts[0], []);
      assert parts[0] + [] == parts[0] && [] + parts[0] == parts[0];
    } else {
      var rest := "/" + JoinSlash(parts[1..]);
      SplitWord([], parts[0], rest);
      assert parts[0] + "/" + JoinSlash(parts[1..]) == parts[0] + rest && [] + parts[0] == parts[0];
      assert rest[1..] == JoinSlash(parts[1..]);
      SplitJoined(parts[1..]);
    }
  }

  lemma {:induction false} MeaningfulConcat(a: seq<string>, b: seq<string>)
    ensures Meaningful(a + b) == Meaningful(a) + Meaningful(b)
  {
    if a == [] {
      assert a + b == b;
    } else {
      assert (a + b)[1..] == a[1..] + b;
      MeaningfulConcat(a[1..], b);
    }
  }

  lemma {:induction false} SplitClosed(open: string, s: string)
    ensures Split(open, s + "/") == Split(open, s) + [""]
    decreases |s|
  {
    if s == [] {
      assert s + "/" == "/" && "/"[1..] == [];
    } else {
      assert (s + "/")[1..] == s[1..] + "/";
      SplitClosed(if s[0] == '/' then [] else open + [s[0]], s[1..]);
    }
  }

  /** Slashes in front and behind, and `./` in front, are empty or `.` parts, which are dropped anyway. */
  lemma {:induction false} LeadingSlashes(slash: char -> bool, s: string)
    requires forall c :: slash(c) <==> c == '/'
    ensures Meaningful(Split([], LStrip(slash, s))) == Meaningful(Split([], s))
  {
    if s != [] && s[0] == '/' {
      LeadingSlashes(slash, s[1..]);
    }
  }

  lemma {:induction false} TrailingSlashes(slash: char -> bool, s: string)
    requires forall c :: slash(c) <==> c == '/'
    ensures Meaningful(Split([], RStrip(slash, s))) == Meaningful(Split([], s))
  {
    if s != [] && s[|s| - 1] == '/' {
      var front := s[..|s| - 1];
      TrailingSlashes(slash, front);
      assert s == front + "/";
      SplitClosed([], front);
      MeaningfulConcat(Split([], front), [""]);
      assert Meaningful([""]) == [];
    }
  }

  lemma {:induction false} LeadingDots(s: string)
    ensures Meaningful(Split([], DropDotSlashes(s))) == Meaningful(Split([], s))
  {
    if |s| >= 2 && s[0] == '.' && s[1] == '/' {
      LeadingDots(s[2..]);
      assert s[1..][1..] == s[2..] && [] + [s[0]] == ".";
      assert Split([], s) == Split(".", s[1..]) == ["."] + Split([], s[2..]);
    }
  }

  /** So the parts of a pattern are those of its split that are neither empty nor `.`. */
  lemma PartsOfPattern(pattern: string)
    ensures PatternParts(pattern) == Meaningful(Split([], pattern))
  {
    var slash := (c: char) => c == '/';
    LeadingSlashes(slash, pattern);
    LeadingDots(LStrip(slash, pattern));
    TrailingSlashes(slash, DropDotSlashes(LStrip(slash, pattern)));
  }

  /** Names as a path has them. */
  ghost predicate Names(parts: Path) {
    forall p :: p in parts ==> p != "" && p != "." && '/' !in p
  }

  lemma {:induction false} NamesMeaningful(parts: Path)
    requires Names(parts)
    ensures Meaningful(parts) == parts
  {
    if parts != [] {
      assert parts[0] in parts && forall p :: p in parts[1..] ==> p in parts;
      NamesMeaningful(parts[1..]);
      assert parts == [parts[0]] + parts[1..];
    }
  }

  lemma {:induction false} LStripAll(strip: char -> bool, pad: string, s: string)
    requires forall c :: c in pad ==> strip(c)
    requires s != [] ==> !strip(s[0])
    ensures LStrip(strip, pad + s) == s
  {
    if pad == [] {
      assert pad + s == s;
    } else {
      assert (pad + s)[1..] == pad[1..] + s;
      LStripAll(strip, pad[1..], s);
    }
  }

  lemma {:induction false} RStripAll(strip: char -> bool, s: string, pad: string)
    requires forall c :: c in pad ==> strip(c)
    requires s != [] ==> !strip(s[|s| - 1])
    ensures RStrip(strip, s + pad) == s
  {
    if pad == [] {
      assert s + pad == s;
    } else {
      assert (s + pad)[..|s + pad| - 1] == s + pad[..|pad| - 1];
      RStripAll(strip, s, pad[..|pad| - 1]);
    }
  }

  /** A line with spaces around a text that neither begins nor ends with one. */
  ghost predicate Surrounds(isSpace: char -> bool, raw: string, text: string) {
    && (text != "" ==> !isSpace(text[0]) && !isSpace(text[|text| - 1]))
    && exists lead: string, trail: string ::
         raw == lead + text + trail && (forall c :: c in lead ==> isSpace(c)) && (forall c :: c in trail ==> isSpace(c))
  }

  lemma StrippedIs(isSpace: char -> bool, raw: string, text: string)
    requires Surrounds(isSpace, raw, text)
    ensures RStrip(isSpace, LStrip(isSpace, raw)) == text
  {
    var lead: string, trail: string :|
      raw == lead + text + trail && (forall c :: c in lead ==> isSpace(c)) && (forall c :: c in trail ==> isSpace(c));
    if text == "" {
      assert raw == lead + trail + [];
      LStripAll(isSpace, lead + trail, []);
      RStripAll(isSpace, [], []);
    } else {
      assert raw == lead + (text + trail);
      LStripAll(isSpace, lead, text + trail);
      RStripAll(isSpace, text, trail);
    }
  }

  /** The index of the first name with one of the glob characters, or the number of names. */
  function FirstGlob(parts: Path): (i: nat)
    ensures i <= |parts| && (i < |parts| ==> '*' in parts[i] || '?' in parts[i] || '[' in parts[i])
    ensures forall j :: 0 <= j < i ==> '*' !in parts[j] && '?' !in parts[j] && '[' !in parts[j]
  {
    if parts == [] || '*' in parts[0] || '?' in parts[0] || '[' in parts[0] then 0 else 1 + FirstGlob(parts[1..])
  }

  lemma {:induction false} LiteralIs(parts: Path)
    ensures LiteralParts(parts) == parts[..FirstGlob(parts)]
  {
    if parts != [] && !IsGlob(parts[0]) {
      LiteralIs(parts[1..]);
      assert parts[..FirstGlob(parts)] == [parts[0]] + parts[1..][..FirstGlob(parts[1..])];
    }
  }

  /** A line re-includes something exactly when its text begins with an exclamation mark. */
  lemma NothingIff(isSpace: char -> bool, raw: string, text: string)
    requires Surrounds(isSpace, raw, text)
    ensures NegationOf(isSpace, raw) == Nothing <==> text == "" || text[0] != '!'
  {
    StrippedIs(isSpace, raw, text);
  }

  /** A pattern with its names joined by slashes, and what may stand around them. */
  ghost predicate Writes(pattern: string, parts: Path) {
    exists open: string, close: string ::
      open in {"", "/", "./"} && close in {"", "/"} && pattern == open + JoinSlash(parts) + close
  }

  lemma PatternReadBack(pattern: string, parts: Path)
    requires parts != [] && Names(parts) && Writes(pattern, parts)
    ensures PatternParts(pattern) == parts
  {
    var open: string, close: string :|
      open in {"", "/", "./"} && close in {"", "/"} && pattern == open + JoinSlash(parts) + close;
    var s := JoinSlash(parts);
    SplitJoined(parts);
    NamesMeaningful(parts);
    PartsOfPattern(pattern);
    var t := open + s;
    OpeningDropped(open, s);
    assert t + "" == t;
    if close == "/" {
      SplitClosed([], t);
      MeaningfulConcat(Split([], t), [""]);
      assert Meaningful([""]) == [];
    }
  }

  lemma OpeningDropped(open: string, s: string)
    requires open in {"", "/", "./"}
    ensures Meaningful(Split([], open + s)) == Meaningful(Split([], s))
  {
    if open == "" {
      assert open + s == s;
    } else if open == "/" {
      assert (open + s)[1..] == s;
    } else {
      assert (open + s)[1..][1..] == s;
      assert Split([], open + s) == Split(['.'], (open + s)[1..]) == ["."] + Split([], s);
    }
  }

  lemma NegatedLine(isSpace: char -> bool, raw: string, pattern: string)
    requires Surrounds(isSpace, raw, "!" + pattern)
    ensures NegationOf(isSpace, raw) == Reincluded(PatternParts(pattern))
  {
    var text := "!" + pattern;
    StrippedIs(isSpace, raw, text);
    assert text[0] == '!' && text[1..] == pattern;
  }

  lemma ReincludedIs(parts: Path)
    requires parts != []
    ensures var i := FirstGlob(parts);
      Reincluded(parts) == if i == |parts| then Exactly(parts) else if i == 0 then Everything else Below(parts[..i])
  {
    LiteralIs(parts);
  }

  /** Reading back a negation: the names joined by slashes, with an optional slash or `./` in front and slash
      behind. Without a glob it re-includes exactly the path; else everything below the names before
      the first glob, which is everything if there are none. */
  lemma NegationReadBack(isSpace: char -> bool, raw: string, pattern: string, parts: Path)
    requires Surrounds(isSpace, raw, "!" + pattern) && Writes(pattern, parts) && parts != [] && Names(parts)
    ensures var i := FirstGlob(parts);
      NegationOf(isSpace, raw) ==
      if i == |parts| then Exactly(parts) else if i == 0 then Everything else Below(parts[..i])
  {
    NegatedLine(isSpace, raw, pattern);
    PatternReadBack(pattern, parts);
    ReincludedIs(parts);
  }

  // ------------------------------------------------------------------- the loop

  function HintsOf(ns: seq<Negation>): Hints {
    Hints(set n, i | n in ns && n.Exactly? && 0 < i < |n.parts| :: n.parts[..i],
          set n | n in ns && n.Below? :: n.prefix,
          Everything in ns)
  }

  /** The directories above a literal pattern. */
  function ParentsOf(parts: Path): set<Path> {
    set i | 0 < i < |parts| :: parts[..i]
  }

  method AddParents(dirs: set<Path>, parts: Path) returns (r: set<Path>)
    ensures r == dirs + ParentsOf(parts)
  {
    r := dirs;
    var i := 1;
    while i < |parts|
      invariant 1 <= i && (i <= |parts| || parts == [])
      invariant forall d :: d in r <==> d in dirs || exists j :: 0 < j < i && j < |parts| && d == parts[..j]
    {
      r := r + {parts[..i]};
      i := i + 1;
    }
  }

  method BuildNegationHints(isSpace: char -> bool, lines: seq<string>) returns (hints: Hints)
    ensures hints == HintsOf(Negations(isSpace, lines))
  {
    hints := Hints({}, {}, false);
    for k := 0 to |lines|
      invariant hints == HintsOf(Negations(isSpace, lines[..k]))
    {
      var n := NegationOf(isSpace, lines[k]);
      NegationsGrow(isSpace, lines, k);
      HintsGrow(Negations(isSpace, lines[..k]), n);
      match n {
        case Nothing =>
        case Everything => hints := hints.(recurseAll := true);
        case Below(prefix) => hints := hints.(wildcardPrefixes := hints.wildcardPrefixes + {prefix});
        case Exactly(parts) =>
          var dirs := AddParents(hints.exactDirs, parts);
          hints := hints.(exactDirs := dirs);
      }
    }
    assert lines[..|lines|] == lines;
  }

  function Negations(isSpace: char -> bool, lines: seq<string>): seq<Negation> {
    seq(|lines|, i requires 0 <= i < |lines| => NegationOf(isSpace, lines[i]))
  }

  lemma NegationsGrow(isSpace: char -> bool, lines: seq<string>, k: nat)
    requires k < |lines|
    ensures Negations(isSpace, lines[..k + 1]) == Negations(isSpace, lines[..k]) + [NegationOf(isSpace, lines[k])]
  {}

  lemma HintsGrow(ns: seq<Negation>, n: Negation)
    ensures HintsOf(ns + [n]) ==
            Hints(HintsOf(ns).exactDirs + (if n.Exactly? then ParentsOf(n.parts) else {}),
                  HintsOf(ns).wildcardPrefixes + (if n.Below? then {n.prefix} else {}),
                  HintsOf(ns).recurseAll || n == Everything)
  {
    assert forall m :: m in ns + [n] <==> m in ns || m == n;
  }

  // ------------------------------------------------------------- what they give

  /** The negation names `file` itself, by its whole path, or a region that `file` may be in. */
  ghost predicate MayReinclude(n: Negation, file: Path) {
    match n
    case Nothing => false
    case Everything => true
    case Below(prefix) => prefix <= file
    case Exactly(parts) => parts == file
  }

  /** Every directory on the way to a re-included file has to be walked. */
  lemma ReincludedIsWalked(ns: seq<Negation>, n: Negation, file: Path, i: nat)
    requires n in ns && MayReinclude(n, file) && 0 < i < |file|
    ensures HintsOf(ns).RequiresDirWalk(file[..i])
  {
    match n
    case Everything =>
    case Below(prefix) =>
      assert prefix in HintsOf(ns).wildcardPrefixes;
      assert if i < |prefix| then file[..i] < prefix else prefix <= file[..i];
    case Exactly(parts) =>
      assert parts[..i] in HintsOf(ns).exactDirs;
  }

  /** Literal negations ask for nothing but the directories above what they name. */
  lemma LiteralWalk(ns: seq<Negation>, dir: Path)
    requires forall n :: n in ns ==> n.Nothing? || n.Exactly?
    ensures HintsOf(ns).RequiresDirWalk(dir) <==>
            dir != [] && exists n :: n in ns && n.Exactly? && dir < n.parts
  {
    if exists n :: n in ns && n.Exactly? && dir != [] && dir < n.parts {
      var n :| n in ns && n.Exactly? && dir != [] && dir < n.parts;
      assert n.parts[..|dir|] == dir;
    }
  }

  /** All directories above a file are walked for literal negations exactly if it lies at the top or
      some literal names something in, or below, the file's own directory. */
  lemma LiteralWalkAbove(ns: seq<Negation>, file: Path)
    requires forall n :: n in ns ==> n.Nothing? || n.Exactly?
    ensures (forall i :: 0 < i < |file| ==> HintsOf(ns).RequiresDirWalk(file[..i])) <==>
            |file| <= 1 || exists n :: n in ns && n.Exactly? && file[..|file| - 1] < n.parts
  {
    if |file| > 1 {
      LiteralWalk(ns, file[..|file| - 1]);
      if n :| n in ns && n.Exactly? && file[..|file| - 1] < n.parts {
        forall i | 0 < i < |file| ensures HintsOf(ns).RequiresDirWalk(file[..i]) {
          LiteralWalk(ns, file[..i]);
          assert file[..i] == n.parts[..i];
        }
      }
    }
  }
}
