/**
 * Path and URL rules of the image fields: joining a directory and a name,
 * splitting a file name into stem and extension, the URL a stored image's
 * derivative is served from, the path a derivative is written to, and the
 * `<op>x<width>x<height>` derivative tokens.
 */
module Paths {
  import opened Wrappers
  import opened Text

  /** `path.join(dir, name)`, without normalisation. */
  function Join(dir: string, name: string): string
  {
    dir + "/" + name
  }

  /** The last index of `c` in `s`, or -1. */
  function LastIndexOf(s: string, c: char): (r: int)
    ensures -1 <= r < |s|
    ensures r >= 0 ==> s[r] == c
    ensures forall j :: r < j < |s| ==> s[j] != c
    decreases |s|
  {
    if |s| == 0 then -1
    else if s[|s| - 1] == c then |s| - 1
    else LastIndexOf(s[..|s| - 1], c)
  }

  /** The last occurrence is found wherever every later character differs. */
  lemma {:induction false} LastIndexOfAt(s: string, c: char, k: int)
    requires 0 <= k < |s| && s[k] == c
    requires forall j :: k < j < |s| ==> s[j] != c
    ensures LastIndexOf(s, c) == k
    decreases |s|
  {
    if k < |s| - 1 {
      var t := s[..|s| - 1];
      assert forall j :: k < j < |t| ==> t[j] == s[j];
      LastIndexOfAt(t, c, k);
    }
  }

  /** `path.basename(p)`: the segment after the last `/`. */
  function Base(p: string): (b: string)
    ensures '/' !in b
  {
    var k := LastIndexOf(p, '/');
    SuffixAfterLast(p, '/', k);
    p[k + 1..]
  }

  lemma SuffixAfterLast(s: string, c: char, k: int)
    requires -1 <= k < |s|
    requires forall j :: k < j < |s| ==> s[j] != c
    ensures c !in s[k + 1..]
  {
    var t := s[k + 1..];
    forall j | 0 <= j < |t|
      ensures t[j] != c
    {
      assert t[j] == s[k + 1 + j];
    }
  }

  /**
   * `path.extname(p)`: from the last `.` of the last segment to its end;
   * empty when that segment has no `.` or only a leading one.
   */
  function Ext(p: string): (e: string)
    ensures |e| <= |Base(p)|
    ensures e == Base(p)[|Base(p)| - |e|..]
    ensures e == "" || e[0] == '.'
    ensures e != "" ==> '.' !in e[1..] && |e| < |Base(p)|
    ensures e == "" <==> forall j :: 0 < j < |Base(p)| ==> Base(p)[j] != '.'
  {
    var b := Base(p);
    var k := LastIndexOf(b, '.');
    if k <= 0 then "" else b[k..]
  }

  /** `path.basename(p, path.extname(p))`. */
  function Stem(p: string): string
  {
    var b := Base(p);
    b[..|b| - |Ext(p)|]
  }

  /** The stem and the extension put back together give the last segment. */
  lemma StemThenExt(p: string)
    ensures Stem(p) + Ext(p) == Base(p)
  {
    var b := Base(p);
    assert b[..|b| - |Ext(p)|] + b[|b| - |Ext(p)|..] == b;
  }

  /** A name without `/` is its own last segment. */
  lemma BaseOfPlainName(p: string)
    requires '/' !in p
    ensures Base(p) == p
  {
  }

  /** The file name of the derivative of `name` for `token`: `<stem>_<token><ext>`. */
  function DerivativeName(name: string, token: string): string
  {
    Stem(name) + "_" + token + Ext(name)
  }

  const Resampled := "_resampled"

  /** Where resampling writes the derivative of `dest/name` for `token`. */
  function DerivativePath(dest: string, name: string, token: string): string
  {
    Join(Join(dest, Resampled), DerivativeName(name, token))
  }

  /**
   * `src`/`thumb`/`href`: the URL of a stored image's derivative, the stored
   * directory with its first `public/` turned into `/`.
   */
  function ThumbUrl(dir: string, filename: string, token: string): string
  {
    Join(Join(ReplaceFirst(dir, "public/", "/"), Resampled), DerivativeName(filename, token))
  }

  /**
   * The URL of a derivative is the path resampling wrote it to, with the
   * public root `public/` served as `/`.
   */
  lemma ThumbUrlServesDerivative(dest: string, name: string, token: string)
    requires IndexOf(dest, "public/") != -1
    ensures ThumbUrl(dest, name, token) == ReplaceFirst(DerivativePath(dest, name, token), "public/", "/")
  {
    var d := DerivativeName(name, token);
    var rest := "/" + Resampled + "/" + d;
    assert DerivativePath(dest, name, token) == dest + rest by {
      JoinTwice(dest, Resampled, d);
    }
    ReplaceFirstInPrefix(dest, rest, "public/", "/");
    JoinTwice(ReplaceFirst(dest, "public/", "/"), Resampled, d);
  }

  lemma JoinTwice(a: string, b: string, c: string)
    ensures Join(Join(a, b), c) == a + ("/" + b + "/" + c)
  {
    assert Join(Join(a, b), c) == a + "/" + b + "/" + c;
  }

  /** Under the default destination the URL is `/assets/_resampled/<stem>_<token><ext>`. */
  lemma DefaultDestinationUrl(name: string, token: string)
    ensures ThumbUrl("public/assets", name, token) == "/assets/_resampled/" + DerivativeName(name, token)
  {
    DefaultDirectoryUrl(DerivativeName(name, token));
  }

  lemma DefaultDirectoryUrl(d: string)
    ensures Join(Join(ReplaceFirst("public/assets", "public/", "/"), Resampled), d) == "/assets/_resampled/" + d
  {
    PublicAssetsServed();
    JoinTwice("/assets", Resampled, d);
    assert "/assets" + ("/" + Resampled + "/" + d) == "/assets/_resampled/" + d;
  }

  /** The default destination `public/assets` is served as `/assets`. */
  lemma PublicAssetsServed()
    ensures ReplaceFirst("public/assets", "public/", "/") == "/assets"
  {
    assert "public/assets"[0..7] == "public/";
    assert IndexOf("public/assets", "public/") == 0;
    assert "public/assets"[7..] == "assets";
  }

  /** The set of derivative paths written for `name` under `dest`, one per token. */
  function DerivativePaths(dest: string, name: string, tokens: seq<string>): set<string>
    decreases |tokens|
  {
    if |tokens| == 0 then {}
    else DerivativePaths(dest, name, tokens[..|tokens| - 1]) + {DerivativePath(dest, name, tokens[|tokens| - 1])}
  }

  /** The derivative paths in token order, as the resampling loops visit them. */
  function DerivativeList(dest: string, name: string, tokens: seq<string>): (r: seq<string>)
    ensures |r| == |tokens|
    decreases |tokens|
  {
    if |tokens| == 0 then []
    else DerivativeList(dest, name, tokens[..|tokens| - 1]) + [DerivativePath(dest, name, tokens[|tokens| - 1])]
  }

  /** The list visits exactly the derivative paths. */
  lemma {:induction false} DerivativeListPaths(dest: string, name: string, tokens: seq<string>)
    ensures (set p | p in DerivativeList(dest, name, tokens)) == DerivativePaths(dest, name, tokens)
    decreases |tokens|
  {
    if |tokens| > 0 {
      DerivativeListPaths(dest, name, tokens[..|tokens| - 1]);
    }
  }

  /** Every token's derivative is among the derivative paths. */
  lemma {:induction false} DerivativePathsCover(dest: string, name: string, tokens: seq<string>)
    ensures forall i :: 0 <= i < |tokens| ==> DerivativePath(dest, name, tokens[i]) in DerivativePaths(dest, name, tokens)
    decreases |tokens|
  {
    if |tokens| > 0 {
      var init := tokens[..|tokens| - 1];
      DerivativePathsCover(dest, name, init);
      forall i | 0 <= i < |tokens| - 1
        ensures DerivativePath(dest, name, tokens[i]) in DerivativePaths(dest, name, init)
      {
        assert tokens[i] == init[i];
      }
    }
  }

  /** Every derivative path comes from one of the tokens: `i` is its position. */
  lemma {:induction false} TokenOfDerivative(dest: string, name: string, tokens: seq<string>, p: string) returns (i: nat)
    requires p in DerivativePaths(dest, name, tokens)
    ensures i < |tokens| && p == DerivativePath(dest, name, tokens[i])
    decreases |tokens|
  {
    var init := tokens[..|tokens| - 1];
    if p in DerivativePaths(dest, name, init) {
      i := TokenOfDerivative(dest, name, init, p);
      assert tokens[i] == init[i];
    } else {
      i := |tokens| - 1;
    }
  }

  /** The derivative paths are exactly the tokens' derivative paths. */
  lemma DerivativePathsExactly(dest: string, name: string, tokens: seq<string>, p: string)
    ensures p in DerivativePaths(dest, name, tokens) <==>
            exists i :: 0 <= i < |tokens| && p == DerivativePath(dest, name, tokens[i])
  {
    DerivativePathsCover(dest, name, tokens);
    if p in DerivativePaths(dest, name, tokens) {
      var i := TokenOfDerivative(dest, name, tokens, p);
    }
  }

  /** The list's entries are the tokens' derivative paths, in token order. */
  lemma {:induction false} DerivativeListElements(dest: string, name: string, tokens: seq<string>)
    ensures forall i :: 0 <= i < |tokens| ==> DerivativeList(dest, name, tokens)[i] == DerivativePath(dest, name, tokens[i])
    decreases |tokens|
  {
    if |tokens| > 0 {
      var init := tokens[..|tokens| - 1];
      DerivativeListElements(dest, name, init);
      forall i | 0 <= i < |tokens| - 1
        ensures DerivativeList(dest, name, tokens)[i] == DerivativePath(dest, name, tokens[i])
      {
        assert tokens[i] == init[i];
      }
    }
  }

  /** A derivative is never the stored original when the name is a plain file name. */
  lemma {:induction false} OriginalIsNotDerivative(dest: string, name: string, tokens: seq<string>)
    requires '/' !in name
    ensures Join(dest, name) !in DerivativePaths(dest, name, tokens)
    decreases |tokens|
  {
    if |tokens| > 0 {
      OriginalIsNotDerivative(dest, name, tokens[..|tokens| - 1]);
      NotADerivative(dest, name, tokens[|tokens| - 1]);
    }
  }

  lemma NotADerivative(dest: string, name: string, token: string)
    requires '/' !in name
    ensures DerivativePath(dest, name, token) != Join(dest, name)
  {
    var d := DerivativePath(dest, name, token);
    assert d[|dest| + 1 + |Resampled|] == '/';
    if |name| > |Resampled| {
      assert Join(dest, name)[|dest| + 1 + |Resampled|] == name[|Resampled|];
    }
  }

  /** A derivative token parsed: the resize operation and the width and height, if given. */
  datatype DerivativeSpec = DerivativeSpec(operation: string, width: Option<string>, height: Option<string>)

  /** `token.split('x')` read as `[operation, width, height]`; missing parts are undefined. */
  function ParseToken(token: string): DerivativeSpec
  {
    var parts := Split(token, 'x');
    DerivativeSpec(parts[0],
                   if |parts| > 1 then Some(parts[1]) else None,
                   if |parts| > 2 then Some(parts[2]) else None)
  }

  /** A token built from an operation and two sizes parses back into them. */
  lemma ParseTokenRoundTrip(op: string, width: string, height: string)
    requires 'x' !in op && 'x' !in width && 'x' !in height
    ensures ParseToken(op + "x" + width + "x" + height) == DerivativeSpec(op, Some(width), Some(height))
  {
    var parts := [op, width, height];
    assert JoinWith(parts, 'x') == op + "x" + width + "x" + height by {
      assert parts[1..] == [width, height];
      assert parts[1..][1..] == [height];
      assert JoinWith([height], 'x') == height;
      assert JoinWith([width, height], 'x') == width + "x" + height;
    }
    JoinThenSplit(parts, 'x');
  }

  const DefaultToken := "thumbnailx160x160"

  /** The default token asks for a 160 by 160 thumbnail. */
  lemma DefaultTokenSpec()
    ensures ParseToken(DefaultToken) == DerivativeSpec("thumbnail", Some("160"), Some("160"))
  {
    assert DefaultToken == "thumbnail" + "x" + "160" + "x" + "160";
    ParseTokenRoundTrip("thumbnail", "160", "160");
  }
}
