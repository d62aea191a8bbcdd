/** Path globs compiled to anchored regular expressions, and what the compiled pattern means. */
module GlobRegex {
  import opened Text

  // ---------------------------------------------------------------- the pattern and its text

  /** The pieces the compiler appends to its output. */
  datatype Token =
    | Caret                // ^
    | Lit(c: char)         // re.escape(c)
    | OneNonSlash          // [^/]
    | ManyNonSlash         // [^/]*
    | AnyText              // .*
    | OptDirs              // (?:.*/)?
    | Dollar               // $

  /** The characters re.escape puts a backslash before. */
  predicate Special(c: char) {
    c in "()[]{}?*+-|^$\\.&~# \t\n\r" || c as int == 11 || c as int == 12
  }

  function TokenText(t: Token): (s: string)
    ensures s != ""
  {
    match t
    case Caret => "^"
    case Lit(c) => if Special(c) then ['\\', c] else [c]
    case OneNonSlash => "[^/]"
    case ManyNonSlash => "[^/]*"
    case AnyText => ".*"
    case OptDirs => "(?:.*/)?"
    case Dollar => "$"
  }

  function PatternText(tokens: seq<Token>): string {
    if tokens == [] then "" else TokenText(tokens[0]) + PatternText(tokens[1..])
  }

  /** What a regular-expression parser does not take for itself. */
  predicate Meta(c: char) {
    || c == '.' || c == '^' || c == '$' || c == '*' || c == '+' || c == '?' || c == '{' || c == '}' || c == '['
    || c == ']' || c == '\\' || c == '|' || c == '(' || c == ')'
  }

  predicate LetterOrDigit(c: char) {
    'a' <= c <= 'z' || 'A' <= c <= 'Z' || '0' <= c <= '9'
  }

  /** The leading piece of a pattern, with the number of characters it takes, as a regular-expression
      parser reads it: a class takes a following star, and a backslash quotes any character but a letter or a digit. */
  function LeadingToken(text: string): Option<(Token, nat)> {
    if text == "" then None
    else if StartsWith(text, "(?:.*/)?") then Some((OptDirs, 8))
    else if StartsWith(text, ".*") then Some((AnyText, 2))
    else if StartsWith(text, "[^/]*") then Some((ManyNonSlash, 5))
    else if StartsWith(text, "[^/]") then Some((OneNonSlash, 4))
    else if text[0] == '^' then Some((Caret, 1))
    else if text[0] == '$' then Some((Dollar, 1))
    else if text[0] == '\\' then
      if |text| > 1 && !LetterOrDigit(text[1]) then Some((Lit(text[1]), 2)) else None
    else if Meta(text[0]) then None
    else Some((Lit(text[0]), 1))
  }

  function ParsePattern(text: string): Option<seq<Token>>
    decreases |text|
  {
    if text == "" then Some([])
    else
      match LeadingToken(text)
      case None => None
      case Some(p) =>
        if p.1 == 0 || p.1 > |text| then None
        else
          match ParsePattern(text[p.1..])
          case None => None
          case Some(rest) => Some([p.0] + rest)
  }

  lemma PatternHead(tokens: seq<Token>)
    ensures var s := PatternText(tokens); s == "" || s[0] != '*'
  {
    if tokens != [] {
      assert TokenText(tokens[0])[0] != '*';
    }
  }

  lemma FirstCharDecides(text: string, p: string)
    requires text != "" && p != "" && text[0] != p[0]
    ensures !StartsWith(text, p)
  {
    assert |p| <= |text| ==> text[..|p|][0] == text[0];
  }

  /** A text with another first character starts with none of the compound pieces. */
  lemma NotCompound(text: string)
    requires text != ""
    ensures text[0] != '(' ==> !StartsWith(text, "(?:.*/)?")
    ensures text[0] != '.' ==> !StartsWith(text, ".*")
    ensures text[0] != '[' ==> !StartsWith(text, "[^/]*") && !StartsWith(text, "[^/]")
  {
    if text[0] != '(' { FirstCharDecides(text, "(?:.*/)?"); }
    if text[0] != '.' { FirstCharDecides(text, ".*"); }
    if text[0] != '[' { FirstCharDecides(text, "[^/]*"); FirstCharDecides(text, "[^/]"); }
  }

  lemma LeadingTokenOf(t: Token, rest: string)
    requires rest == "" || rest[0] != '*'
    ensures LeadingToken(TokenText(t) + rest) == Some((t, |TokenText(t)|))
  {
    var text := TokenText(t) + rest;
    assert StartsWith(text, TokenText(t)) && text[0] == TokenText(t)[0];
    NotCompound(text);
    if t == OneNonSlash {
      assert |text| >= 5 ==> text[..5][4] == rest[0];
      assert !StartsWith(text, "[^/]*");
    }
    hide StartsWith;
    match t
    case Lit(c) =>
      if Special(c) {
        assert text[1] == c;
      }
    case _ =>
  }

  /** Escaping makes the concatenated text unambiguous: it reads back as exactly the pieces appended. */
  lemma {:induction false} PatternTextReadsBack(tokens: seq<Token>)
    ensures ParsePattern(PatternText(tokens)) == Some(tokens)
  {
    if tokens != [] {
      var t, rest := tokens[0], PatternText(tokens[1..]);
      PatternTextReadsBack(tokens[1..]);
      PatternHead(tokens[1..]);
      LeadingTokenOf(t, rest);
      var text := PatternText(tokens);
      assert text == TokenText(t) + rest && text[|TokenText(t)|..] == rest;
      assert [t] + tokens[1..] == tokens;
    }
  }

  // ---------------------------------------------------------------- what a pattern matches

  predicate NoSlash(s: string) {
    '/' !in s
  }

  /** A group of whole directories may end just after position k. */
  ghost predicate DirsEndAt(s: string, k: nat) {
    k < |s| && s[k] == '/' && NoNewline(s[..k])
  }

  /** Some way of matching the pieces from the start of s succeeds.  A dot does not match a line feed,
      and $ accepts the end or a final line feed. */
  ghost predicate MatchTokens(tokens: seq<Token>, s: string)
    decreases |tokens|, |s|
  {
    if tokens == [] then true
    else
      var rest := tokens[1..];
      match tokens[0]
      case Caret => MatchTokens(rest, s)
      case Lit(c) => s != "" && s[0] == c && MatchTokens(rest, s[1..])
      case OneNonSlash => s != "" && s[0] != '/' && MatchTokens(rest, s[1..])
      case ManyNonSlash => MatchTokens(rest, s) || (s != "" && s[0] != '/' && MatchTokens(tokens, s[1..]))
      case AnyText => MatchTokens(rest, s) || (s != "" && s[0] != '\n' && MatchTokens(tokens, s[1..]))
      case OptDirs => MatchTokens(rest, s) || exists k: nat :: DirsEndAt(s, k) && MatchTokens(rest, s[k + 1..])
      case Dollar => (s == "" || s == "\n") && MatchTokens(rest, s)
  }

  // ---------------------------------------------------------------- the compiler

  /** The pieces for a glob, without the anchors. */
  function Compile(glob: string): seq<Token>
    decreases |glob|
  {
    if glob == "" then []
    else if glob[0] == '*' then
      if |glob| > 1 && glob[1] == '*' then
        if |glob| > 2 && glob[2] == '/' then [OptDirs] + Compile(glob[3..])
        else [AnyText] + Compile(glob[2..])
      else [ManyNonSlash] + Compile(glob[1..])
    else if glob[0] == '?' then [OneNonSlash] + Compile(glob[1..])
    else [Lit(glob[0])] + Compile(glob[1..])
  }

  function Anchored(glob: string): seq<Token> {
    [Caret] + Compile(glob) + [Dollar]
  }

  /** The scanner: an index into the glob and a growing output. */
  method GlobToRegex(glob: string) returns (pattern: string)
    ensures pattern == PatternText(Anchored(glob))
    ensures ParsePattern(pattern) == Some(Anchored(glob))
  {
    var i, n := 0, |glob|;
    var out: seq<Token> := [Caret];
    while i < n
      invariant i <= n
      invariant out + Compile(glob[i..]) == [Caret] + Compile(glob)
    {
      var c, tail, before := glob[i], glob[i..], out;
      ghost var start := i;
      if c == '*' {
        if i + 1 < n && glob[i + 1] == '*' {
          i := i + 2;
          if i < n && glob[i] == '/' {
            out := out + [OptDirs];
            i := i + 1;
          } else {
            out := out + [AnyText];
          }
        } else {
          out := out + [ManyNonSlash];
          i := i + 1;
        }
      } else if c == '?' {
        out := out + [OneNonSlash];
        i := i + 1;
      } else {
        out := out + [Lit(c)];
        i := i + 1;
      }
      assert tail[i - start..] == glob[i..];
      assert Compile(tail) == [out[|before|]] + Compile(glob[i..]);
      Assoc(before, [out[|before|]], Compile(glob[i..]));
    }
    assert glob[i..] == "" && out + [] == out;
    out := out + [Dollar];
    pattern := PatternText(out);
    PatternTextReadsBack(out);
  }

  // ---------------------------------------------------------------- the glob read directly

  /** A glob matches a whole path: ** followed by a slash stands for nothing or any text up to a slash,
      other ** for any text, * for text without a slash, ? for one character that is not a slash. */
  ghost predicate GlobMatches(glob: string, path: string)
    decreases |glob|
  {
    if glob == "" then path == ""
    else if StartsWith(glob, "**/") then
      GlobMatches(glob[3..], path) || exists k: nat :: DirsEndAt(path, k) && GlobMatches(glob[3..], path[k + 1..])
    else if StartsWith(glob, "**") then
      exists k: nat :: k <= |path| && NoNewline(path[..k]) && GlobMatches(glob[2..], path[k..])
    else if glob[0] == '*' then
      exists k: nat :: k <= |path| && NoSlash(path[..k]) && GlobMatches(glob[1..], path[k..])
    else if glob[0] == '?' then
      path != "" && path[0] != '/' && GlobMatches(glob[1..], path[1..])
    else
      path != "" && path[0] == glob[0] && GlobMatches(glob[1..], path[1..])
  }

  /** $ also accepts one final line feed. */
  ghost predicate MatchesBeforeNewline(glob: string, path: string) {
    path != "" && path[|path| - 1] == '\n' && GlobMatches(glob, path[..|path| - 1])
  }

  ghost predicate Accepts(glob: string, path: string) {
    GlobMatches(glob, path) || MatchesBeforeNewline(glob, path)
  }

  lemma FirstOff(s: string, k: nat)
    requires 0 < k <= |s|
    ensures s[1..][k - 1..] == s[k..] && s[..k] == [s[0]] + s[1..][..k - 1]
    ensures NoSlash(s[..k]) <==> s[0] != '/' && NoSlash(s[1..][..k - 1])
    ensures NoNewline(s[..k]) <==> s[0] != '\n' && NoNewline(s[1..][..k - 1])
  {
    var t := s[1..][..k - 1];
    assert s[..k] == [s[0]] + t;
    assert forall c :: c in [s[0]] + t <==> c == s[0] || c in t;
  }

  lemma {:induction false} ManyMatches(rest: seq<Token>, s: string)
    ensures MatchTokens([ManyNonSlash] + rest, s)
            <==> exists k: nat :: k <= |s| && NoSlash(s[..k]) && MatchTokens(rest, s[k..])
    decreases |s|
  {
    hide NoSlash;
    EmptyTaken(s);
    var tokens := [ManyNonSlash] + rest;
    assert tokens[1..] == rest;
    if s != "" {
      ManyMatches(rest, s[1..]);
      if MatchTokens(tokens, s) && !MatchTokens(rest, s) {
        var k: nat :| k <= |s[1..]| && NoSlash(s[1..][..k]) && MatchTokens(rest, s[1..][k..]);
        FirstOff(s, k + 1);
      }
      if k: nat :| k <= |s| && NoSlash(s[..k]) && MatchTokens(rest, s[k..]) {
        if k > 0 {
          FirstOff(s, k);
          assert MatchTokens(rest, s[1..][k - 1..]);
        }
      }
    }
  }

  lemma EmptyTaken(s: string)
    ensures s[0..] == s && NoSlash(s[..0]) && NoNewline(s[..0])
  {
  }

  lemma {:induction false} AnyMatches(rest: seq<Token>, s: string)
    ensures MatchTokens([AnyText] + rest, s)
            <==> exists k: nat :: k <= |s| && NoNewline(s[..k]) && MatchTokens(rest, s[k..])
    decreases |s|
  {
    hide NoNewline;
    EmptyTaken(s);
    var tokens := [AnyText] + rest;
    assert tokens[1..] == rest;
    if s != "" {
      AnyMatches(rest, s[1..]);
      if MatchTokens(tokens, s) && !MatchTokens(rest, s) {
        var k: nat :| k <= |s[1..]| && NoNewline(s[1..][..k]) && MatchTokens(rest, s[1..][k..]);
        FirstOff(s, k + 1);
      }
      if k: nat :| k <= |s| && NoNewline(s[..k]) && MatchTokens(rest, s[k..]) {
        if k > 0 {
          FirstOff(s, k);
          assert MatchTokens(rest, s[1..][k - 1..]);
        }
      }
    }
  }

  lemma InitOfTail(s: string, k: nat)
    requires k < |s|
    ensures s[k..] != "" && s[k..][|s[k..]| - 1] == s[|s| - 1] && s[k..][..|s[k..]| - 1] == s[..|s| - 1][k..]
  {
  }

  lemma InitOfPrefix(s: string, k: nat)
    requires k < |s|
    ensures s[..|s| - 1][..k] == s[..k]
  {
  }

  lemma StarsAhead(glob: string)
    requires glob != ""
    ensures StartsWith(glob, "**") <==> |glob| > 1 && glob[0] == '*' && glob[1] == '*'
    ensures StartsWith(glob, "**/") <==> |glob| > 2 && glob[0] == '*' && glob[1] == '*' && glob[2] == '/'
  {
    if |glob| > 1 {
      assert glob[..2] == [glob[0], glob[1]];
    }
    if |glob| > 2 {
      assert glob[..3] == [glob[0], glob[1], glob[2]];
    }
  }

  lemma StarAccepts(glob: string, s: string)
    requires glob != "" && glob[0] == '*' && !StartsWith(glob, "**")
    ensures Accepts(glob, s) <==> exists k: nat :: k <= |s| && NoSlash(s[..k]) && Accepts(glob[1..], s[k..])
  {
    var g, init := glob[1..], if s == "" then "" else s[..|s| - 1];
    StarsAhead(glob);
    if Accepts(glob, s) {
      if GlobMatches(glob, s) {
        var k: nat :| k <= |s| && NoSlash(s[..k]) && GlobMatches(g, s[k..]);
        assert Accepts(g, s[k..]);
      } else {
        var k: nat :| k <= |init| && NoSlash(init[..k]) && GlobMatches(g, init[k..]);
        InitOfTail(s, k);
        InitOfPrefix(s, k);
        assert Accepts(g, s[k..]);
      }
    }
    if k: nat :| k <= |s| && NoSlash(s[..k]) && Accepts(g, s[k..]) {
      if !GlobMatches(g, s[k..]) {
        InitOfTail(s, k);
        InitOfPrefix(s, k);
        assert GlobMatches(g, init[k..]);
      }
    }
  }

  lemma AnyAccepts(glob: string, s: string)
    requires StartsWith(glob, "**") && !StartsWith(glob, "**/")
    ensures Accepts(glob, s) <==> exists k: nat :: k <= |s| && NoNewline(s[..k]) && Accepts(glob[2..], s[k..])
  {
    var g, init := glob[2..], if s == "" then "" else s[..|s| - 1];
    if Accepts(glob, s) {
      if GlobMatches(glob, s) {
        var k: nat :| k <= |s| && NoNewline(s[..k]) && GlobMatches(g, s[k..]);
        assert Accepts(g, s[k..]);
      } else {
        var k: nat :| k <= |init| && NoNewline(init[..k]) && GlobMatches(g, init[k..]);
        InitOfTail(s, k);
        InitOfPrefix(s, k);
        assert Accepts(g, s[k..]);
      }
    }
    if k: nat :| k <= |s| && NoNewline(s[..k]) && Accepts(g, s[k..]) {
      if !GlobMatches(g, s[k..]) {
        InitOfTail(s, k);
        InitOfPrefix(s, k);
        assert GlobMatches(g, init[k..]);
      }
    }
  }

  lemma DirsUnfold(glob: string, s: string)
    requires StartsWith(glob, "**/")
    ensures GlobMatches(glob, s)
            <==> GlobMatches(glob[3..], s) || exists k: nat :: DirsEndAt(s, k) && GlobMatches(glob[3..], s[k + 1..])
  {
  }

  lemma DirsForward(glob: string, s: string)
    requires StartsWith(glob, "**/") && Accepts(glob, s)
    ensures Accepts(glob[3..], s) || exists k: nat :: DirsEndAt(s, k) && Accepts(glob[3..], s[k + 1..])
  {
    hide GlobMatches;
    var g, init := glob[3..], if s == "" then "" else s[..|s| - 1];
    if GlobMatches(glob, s) {
      DirsUnfold(glob, s);
      if !GlobMatches(g, s) {
        var k: nat :| DirsEndAt(s, k) && GlobMatches(g, s[k + 1..]);
        assert Accepts(g, s[k + 1..]);
      }
    } else {
      DirsUnfold(glob, init);
      if !GlobMatches(g, init) {
        var k: nat :| DirsEndAt(init, k) && GlobMatches(g, init[k + 1..]);
        InitOfTail(s, k + 1);
        InitOfPrefix(s, k);
        assert DirsEndAt(s, k) && Accepts(g, s[k + 1..]);
      }
    }
  }

  lemma DirsBackward(glob: string, s: string, k: nat)
    requires StartsWith(glob, "**/") && DirsEndAt(s, k) && Accepts(glob[3..], s[k + 1..])
    ensures Accepts(glob, s)
  {
    hide GlobMatches;
    var g, init := glob[3..], s[..|s| - 1];
    if GlobMatches(g, s[k + 1..]) {
      DirsUnfold(glob, s);
    } else {
      InitOfTail(s, k + 1);
      InitOfPrefix(s, k);
      DirsUnfold(glob, init);
      assert DirsEndAt(init, k) && GlobMatches(g, init[k + 1..]);
    }
  }

  lemma DirsAccept(glob: string, s: string)
    requires StartsWith(glob, "**/")
    ensures Accepts(glob, s)
            <==> Accepts(glob[3..], s) || exists k: nat :: DirsEndAt(s, k) && Accepts(glob[3..], s[k + 1..])
  {
    hide GlobMatches;
    if Accepts(glob, s) {
      DirsForward(glob, s);
    }
    if Accepts(glob[3..], s) {
      DirsUnfold(glob, s);
      DirsUnfold(glob, if s == "" then "" else s[..|s| - 1]);
    }
    if k: nat :| DirsEndAt(s, k) && Accepts(glob[3..], s[k + 1..]) {
      DirsBackward(glob, s, k);
    }
  }

  /** One character of the glob against one character of the text. */
  lemma OneAccepts(glob: string, s: string)
    requires glob != "" && glob[0] != '*'
    ensures Accepts(glob, s) <==>
            s != "" && (if glob[0] == '?' then s[0] != '/' else s[0] == glob[0]) && Accepts(glob[1..], s[1..])
  {
    StarsAhead(glob);
    if |s| > 1 {
      InitOfTail(s, 1);
    }
  }

  /** The compiled pattern accepts exactly what the glob, read directly, accepts. */
  lemma {:induction false} CompileAccepts(glob: string, s: string)
    ensures MatchTokens(Compile(glob) + [Dollar], s) <==> Accepts(glob, s)
    decreases |glob|
  {
    var tokens := Compile(glob) + [Dollar];
    if glob == "" {
      assert tokens == [Dollar];
      assert s == "\n" <==> s != "" && s[|s| - 1] == '\n' && s[..|s| - 1] == "";
    } else if glob[0] != '*' {
      var rest := Compile(glob[1..]) + [Dollar];
      assert tokens == [Compile(glob)[0]] + rest;
      OneAccepts(glob, s);
      if s != "" {
        CompileAccepts(glob[1..], s[1..]);
      }
    } else if !StartsWith(glob, "**") {
      var rest := Compile(glob[1..]) + [Dollar];
      StarsAhead(glob);
      assert tokens == [ManyNonSlash] + rest;
      ManyMatches(rest, s);
      StarAccepts(glob, s);
      forall k: nat | k <= |s| ensures MatchTokens(rest, s[k..]) <==> Accepts(glob[1..], s[k..]) {
        CompileAccepts(glob[1..], s[k..]);
      }
    } else if !StartsWith(glob, "**/") {
      var rest := Compile(glob[2..]) + [Dollar];
      StarsAhead(glob);
      assert tokens == [AnyText] + rest;
      AnyMatches(rest, s);
      AnyAccepts(glob, s);
      forall k: nat | k <= |s| ensures MatchTokens(rest, s[k..]) <==> Accepts(glob[2..], s[k..]) {
        CompileAccepts(glob[2..], s[k..]);
      }
    } else {
      var rest := Compile(glob[3..]) + [Dollar];
      StarsAhead(glob);
      assert tokens == [OptDirs] + rest && tokens[1..] == rest;
      DirsAccept(glob, s);
      CompileAccepts(glob[3..], s);
      forall k: nat | DirsEndAt(s, k) ensures MatchTokens(rest, s[k + 1..]) <==> Accepts(glob[3..], s[k + 1..]) {
        CompileAccepts(glob[3..], s[k + 1..]);
      }
    }
  }

  /** For every glob and every path: what the compiled text accepts, read as a regular expression. */
  lemma RegexMeansGlob(glob: string, path: string)
    ensures var tokens := ParsePattern(PatternText(Anchored(glob)));
            tokens.Some? && (MatchTokens(tokens.value, path) <==> Accepts(glob, path))
    ensures NoNewline(path) ==> (Accepts(glob, path) <==> GlobMatches(glob, path))
  {
    PatternTextReadsBack(Anchored(glob));
    assert Anchored(glob) == [Caret] + (Compile(glob) + [Dollar]) && Anchored(glob)[1..] == Compile(glob) + [Dollar];
    CompileAccepts(glob, path);
    if path != "" {
      assert path[|path| - 1] in path;
    }
  }
}
