/** The small string transforms `Tokenizer` applies inline: the actor-name
    slug of the wildcard pattern written on submit, the trimming of the
    configured default-frame path, and the mapping of an actor's type to the
    setting that holds its default frame. */
module Names {
  import opened Opt

  /** A character matched by `[\w.]`: an ASCII letter, digit, `_` or `.`. */
  predicate IsSlugChar(c: char) {
    ('A' <= c <= 'Z') || ('a' <= c <= 'z') || ('0' <= c <= '9') || c == '_' || c == '.'
  }

  predicate AllSlugChars(s: string) {
    forall i :: 0 <= i < |s| ==> IsSlugChar(s[i])
  }

  predicate NoDoubleUnderscore(s: string) {
    forall i :: 0 <= i < |s| - 1 ==> !(s[i] == '_' && s[i + 1] == '_')
  }

  /** First step of the slug, `replace(/[^\w.]/gi, "_")`: every character
      outside `[\w.]` becomes `_`, the others are kept in place. */
  function MaskNonSlugChars(s: string): (r: string)
    ensures |r| == |s| && AllSlugChars(r)
    ensures forall i :: 0 <= i < |s| && IsSlugChar(s[i]) ==> r[i] == s[i]
    ensures forall i :: 0 <= i < |s| && !IsSlugChar(s[i]) ==> r[i] == '_'
    decreases |s|
  {
    if s == [] then []
    else [if IsSlugChar(s[0]) then s[0] else '_'] + MaskNonSlugChars(s[1..])
  }

  /** Length of the run of `_` that `s` starts with. */
  function LeadingUnderscores(s: string): (n: nat)
    ensures n <= |s|
    ensures forall i :: 0 <= i < n ==> s[i] == '_'
    ensures n < |s| ==> s[n] != '_'
    decreases |s|
  {
    if s == [] || s[0] != '_' then 0 else 1 + LeadingUnderscores(s[1..])
  }

  /** Second step of the slug, `replace(/__+/g, "")`: every maximal run of
      two or more underscores is deleted, a lone `_` is kept. */
  function DropUnderscoreRuns(s: string): (r: string)
    ensures NoDoubleUnderscore(r)
    ensures |r| <= |s|
    ensures forall c :: c in r ==> c in s
    ensures AllSlugChars(s) ==> AllSlugChars(r)
    ensures r != [] && r[0] == '_' ==> s[0] == '_' && LeadingUnderscores(s) == 1
    decreases |s|
  {
    if s == [] then []
    else if s[0] != '_' then [s[0]] + DropUnderscoreRuns(s[1..])
    else
      var n := LeadingUnderscores(s);
      (if n == 1 then "_" else "") + DropUnderscoreRuns(s[n..])
  }

  /** The slug of line 82: mask, then drop underscore runs. */
  function NameSlug(name: string): (slug: string)
    ensures AllSlugChars(slug) && NoDoubleUnderscore(slug)
  {
    DropUnderscoreRuns(MaskNonSlugChars(name))
  }

  /** The characters other than `_`, in order. */
  function NonUnderscores(s: string): string
    decreases |s|
  {
    if s == [] then [] else (if s[0] == '_' then [] else [s[0]]) + NonUnderscores(s[1..])
  }

  lemma {:induction false} NonUnderscoresSkipRun(s: string, n: nat)
    requires n <= |s| && forall i :: 0 <= i < n ==> s[i] == '_'
    ensures NonUnderscores(s[n..]) == NonUnderscores(s)
    decreases n
  {
    if n > 0 {
      assert s[1..][n - 1..] == s[n..];
      NonUnderscoresSkipRun(s[1..], n - 1);
    }
  }

  lemma {:induction false} NonUnderscoresConcat(a: string, b: string)
    ensures NonUnderscores(a + b) == NonUnderscores(a) + NonUnderscores(b)
    decreases |a|
  {
    if a == [] {
      assert a + b == b;
    } else {
      assert (a + b)[1..] == a[1..] + b;
      NonUnderscoresConcat(a[1..], b);
    }
  }

  /** Dropping runs only ever deletes underscores: every other character is
      kept, in order. */
  lemma {:induction false} DropUnderscoreRunsKeepsOthers(s: string)
    ensures NonUnderscores(DropUnderscoreRuns(s)) == NonUnderscores(s)
    decreases |s|
  {
    if s != [] {
      if s[0] != '_' {
        DropUnderscoreRunsKeepsOthers(s[1..]);
        NonUnderscoresConcat([s[0]], DropUnderscoreRuns(s[1..]));
      } else {
        var n := LeadingUnderscores(s);
        DropUnderscoreRunsKeepsOthers(s[n..]);
        NonUnderscoresSkipRun(s, n);
        NonUnderscoresConcat(if n == 1 then "_" else "", DropUnderscoreRuns(s[n..]));
      }
    }
  }

  /** The run length is pinned down by where the run ends. */
  lemma {:induction false} LeadingUnderscoresIs(s: string, n: nat)
    requires n <= |s| && forall i :: 0 <= i < n ==> s[i] == '_'
    requires n < |s| ==> s[n] != '_'
    ensures LeadingUnderscores(s) == n
    decreases n
  {
    if n > 0 {
      LeadingUnderscoresIs(s[1..], n - 1);
    }
  }

  /** A string that does not end in `_` shares no run with what follows it. */
  lemma LeadingUnderscoresOfConcat(x: string, y: string)
    requires x != [] && x[|x| - 1] != '_'
    ensures LeadingUnderscores(x + y) == LeadingUnderscores(x) < |x|
  {
    var n := LeadingUnderscores(x);
    assert n < |x|;
    assert (x + y)[n] == x[n];
    LeadingUnderscoresIs(x + y, n);
  }

  /** Dropping runs distributes over a split point that is not inside a run. */
  lemma {:induction false} DropUnderscoreRunsConcat(x: string, y: string)
    requires x == [] || x[|x| - 1] != '_'
    ensures DropUnderscoreRuns(x + y) == DropUnderscoreRuns(x) + DropUnderscoreRuns(y)
    decreases |x|, 1
  {
    if x == [] {
      assert x + y == y;
    } else if x[0] != '_' {
      DropUnderscoreRunsConcatKept(x, y);
    } else {
      DropUnderscoreRunsConcatRun(x, y);
    }
  }

  lemma {:induction false} DropUnderscoreRunsConcatKept(x: string, y: string)
    requires x != [] && x[0] != '_' && x[|x| - 1] != '_'
    ensures DropUnderscoreRuns(x + y) == DropUnderscoreRuns(x) + DropUnderscoreRuns(y)
    decreases |x|, 0
  {
    var t := x[1..];
    assert (x + y)[1..] == t + y;
    DropUnderscoreRunsConcat(t, y);
    assert DropUnderscoreRuns(x + y) == [x[0]] + DropUnderscoreRuns(t + y);
  }

  lemma {:induction false} DropUnderscoreRunsConcatRun(x: string, y: string)
    requires x != [] && x[0] == '_' && x[|x| - 1] != '_'
    ensures DropUnderscoreRuns(x + y) == DropUnderscoreRuns(x) + DropUnderscoreRuns(y)
    decreases |x|, 0
  {
    var n := LeadingUnderscores(x);
    var t := x[n..];
    LeadingUnderscoresOfConcat(x, y);
    assert (x + y)[n..] == t + y;
    DropUnderscoreRunsConcat(t, y);
    assert DropUnderscoreRuns(x + y) == (if n == 1 then "_" else "") + DropUnderscoreRuns(t + y);
  }

  lemma ConcatAssociative(x: string, y: string, z: string)
    ensures x + y + z == x + (y + z)
  {
  }

  /** `k` underscores. */
  function Underscores(k: nat): (u: string)
    ensures |u| == k && forall i :: 0 <= i < k ==> u[i] == '_'
  {
    seq(k, _ => '_')
  }

  /** A run of `k` underscores at the front, with `b` not continuing it. */
  lemma DropUnderscoreRunsOfLeadingRun(k: nat, b: string)
    requires k >= 1
    requires b == [] || b[0] != '_'
    ensures DropUnderscoreRuns(Underscores(k) + b) == (if k == 1 then "_" else "") + DropUnderscoreRuns(b)
  {
    var s := Underscores(k) + b;
    assert k < |s| ==> s[k] == b[0];
    LeadingUnderscoresIs(s, k);
    assert s[k..] == b;
  }

  /** A maximal run of `k` underscores between `a` and `b`: a run of two or
      more vanishes entirely, a lone `_` stays. */
  lemma DropUnderscoreRunsOfRun(a: string, k: nat, b: string)
    requires k >= 1
    requires a == [] || a[|a| - 1] != '_'
    requires b == [] || b[0] != '_'
    ensures DropUnderscoreRuns(a + Underscores(k) + b) ==
            DropUnderscoreRuns(a) + (if k == 1 then "_" else "") + DropUnderscoreRuns(b)
  {
    var u := Underscores(k);
    var lead: string := if k == 1 then "_" else "";
    calc {
      DropUnderscoreRuns(a + u + b);
      { ConcatAssociative(a, u, b); }
      DropUnderscoreRuns(a + (u + b));
      { DropUnderscoreRunsConcat(a, u + b); }
      DropUnderscoreRuns(a) + DropUnderscoreRuns(u + b);
      { DropUnderscoreRunsOfLeadingRun(k, b); }
      DropUnderscoreRuns(a) + (lead + DropUnderscoreRuns(b));
      { ConcatAssociative(DropUnderscoreRuns(a), lead, DropUnderscoreRuns(b)); }
      DropUnderscoreRuns(a) + lead + DropUnderscoreRuns(b);
    }
  }

  /** A string without two adjacent underscores has nothing to drop. */
  lemma {:induction false} DropUnderscoreRunsFixes(s: string)
    requires NoDoubleUnderscore(s)
    ensures DropUnderscoreRuns(s) == s
    decreases |s|
  {
    if s != [] {
      assert NoDoubleUnderscore(s[1..]) by {
        forall i | 0 <= i < |s[1..]| - 1
          ensures !(s[1..][i] == '_' && s[1..][i + 1] == '_')
        {
          assert s[1..][i] == s[i + 1] && s[1..][i + 1] == s[i + 2];
        }
      }
      DropUnderscoreRunsFixes(s[1..]);
      if s[0] == '_' {
        assert |s| > 1 ==> s[1] != '_';
        assert LeadingUnderscores(s) == 1;
      }
    }
  }

  lemma MaskNonSlugCharsFixes(s: string)
    requires AllSlugChars(s)
    ensures MaskNonSlugChars(s) == s
  {
  }

  /** A name is its own slug exactly when it uses only `[\w.]` and has no two
      adjacent underscores; in particular the slug is idempotent. */
  lemma NameSlugFixedPoints(name: string)
    ensures NameSlug(name) == name <==> AllSlugChars(name) && NoDoubleUnderscore(name)
    ensures NameSlug(NameSlug(name)) == NameSlug(name)
  {
    if AllSlugChars(name) && NoDoubleUnderscore(name) {
      MaskNonSlugCharsFixes(name);
      DropUnderscoreRunsFixes(name);
    }
    var slug := NameSlug(name);
    MaskNonSlugCharsFixes(slug);
    DropUnderscoreRunsFixes(slug);
  }

  /** The default-frame setting after `replace(/^\/|\/$/g, "")`: one leading
      `/` and one trailing `/` are removed; a lone `/` becomes empty. */
  function TrimSlashes(s: string): (r: string)
    ensures |s| - 2 <= |r| <= |s|
    ensures (|s| == 0 || (s[0] != '/' && s[|s| - 1] != '/')) ==> r == s
  {
    var a := if |s| > 0 && s[0] == '/' then s[1..] else s;
    if |a| > 0 && a[|a| - 1] == '/' then a[..|a| - 1] else a
  }

  /** Exactly the leading `/` (if any) and the trailing `/` (if any, and not
      the same character) are cut, and both can be put back. */
  lemma TrimSlashesRestore(s: string)
    ensures s == (if |s| > 0 && s[0] == '/' then "/" else "") + TrimSlashes(s) +
                 (if |s| > 1 && s[|s| - 1] == '/' then "/" else "")
  {
  }

  /** White space and line terminators as `String.prototype.trim` strips
      them (ECMAScript WhiteSpace, with the Unicode space separators, and
      LineTerminator). */
  predicate IsSpace(c: char) {
    c == '\t' || c == '\n' || c == '\U{000B}' || c == '\U{000C}' || c == '\r' || c == ' ' ||
    c == '\U{00A0}' || c == '\U{1680}' || ('\U{2000}' <= c <= '\U{200A}') ||
    c == '\U{2028}' || c == '\U{2029}' || c == '\U{202F}' || c == '\U{205F}' ||
    c == '\U{3000}' || c == '\U{FEFF}'
  }

  predicate AllSpace(s: string) {
    forall i :: 0 <= i < |s| ==> IsSpace(s[i])
  }

  /** Length of the white space `s` starts with. */
  function LeadingSpaces(s: string): (n: nat)
    ensures n <= |s|
    ensures forall k :: 0 <= k < n ==> IsSpace(s[k])
    ensures n < |s| ==> !IsSpace(s[n])
    decreases |s|
  {
    if s != [] && IsSpace(s[0]) then 1 + LeadingSpaces(s[1..]) else 0
  }

  /** Length of the white space `s` ends with. */
  function TrailingSpaces(s: string): (n: nat)
    ensures n <= |s|
    ensures forall k :: |s| - n <= k < |s| ==> IsSpace(s[k])
    ensures n < |s| ==> !IsSpace(s[|s| - 1 - n])
    decreases |s|
  {
    if s != [] && IsSpace(s[|s| - 1]) then 1 + TrailingSpaces(s[..|s| - 1]) else 0
  }

  /** `String.prototype.trim`: the part of `s` left after cutting the white
      space at its front and then the white space at its back. Only white
      space is cut, and only from the ends; nothing is left exactly when the
      string is all white space. */
  function Trim(s: string): (r: string)
    ensures exists i, j :: 0 <= i <= j <= |s| && r == s[i..j] && AllSpace(s[..i]) && AllSpace(s[j..])
    ensures r == [] <==> AllSpace(s)
    ensures r != [] ==> !IsSpace(r[0]) && !IsSpace(r[|r| - 1])
  {
    var i := LeadingSpaces(s);
    var t := s[i..];
    var j := i + |t| - TrailingSpaces(t);
    assert i < |s| ==> j > i by {
      if i < |s| {
        assert t[0] == s[i];
      }
    }
    assert AllSpace(s[..i]) by {
      forall k | 0 <= k < i
        ensures IsSpace(s[..i][k])
      {
      }
    }
    assert AllSpace(s[j..]) by {
      forall k | 0 <= k < |s| - j
        ensures IsSpace(s[j..][k])
      {
        assert s[j..][k] == t[j - i + k];
      }
    }
    assert i == |s| || !AllSpace(s);
    s[i..j]
  }

  /** `s && s.trim() !== ""`: the string is non-empty and does not trim to
      nothing; that is, it has a character that is not white space. */
  function IsPresent(s: string): (present: bool)
    ensures present <==> exists i :: 0 <= i < |s| && !IsSpace(s[i])
  {
    s != [] && Trim(s) != []
  }

  /** The actor type as the frame setting names it: `pc` for characters,
      `npc` for everything else. */
  function ActorKind(actorType: string): (kind: string)
    ensures kind == "pc" || kind == "npc"
    ensures kind == "pc" <==> actorType == "character"
  {
    if actorType == "character" then "pc" else "npc"
  }

  /** The setting that holds the default frame: characters read
      `default-frame-pc`, every other type reads `default-frame-npc`. */
  function FrameSettingKey(actorType: string): (key: string)
    ensures key == "default-frame-pc" || key == "default-frame-npc"
    ensures key == "default-frame-pc" <==> actorType == "character"
  {
    "default-frame-" + ActorKind(actorType)
  }

  /** The default frame to place over the token, if one is configured:
      `setting` gives the module's setting value for a key. The frame is the
      raw setting with at most one `/` cut from each end. */
  function DefaultFrame(actorType: string, setting: string -> string): (frame: Option<string>)
    ensures frame.Some? <==> IsPresent(TrimSlashes(setting(FrameSettingKey(actorType))))
    ensures frame.Some? ==>
      frame.value == TrimSlashes(setting(FrameSettingKey(actorType))) && frame.value != []
    ensures frame.Some? ==>
      exists p: string, q: string :: (p == "" || p == "/") && (q == "" || q == "/") &&
        setting(FrameSettingKey(actorType)) == p + frame.value + q
  {
    var raw := setting(FrameSettingKey(actorType));
    var path := TrimSlashes(raw);
    if IsPresent(path) then
      TrimSlashesRestore(raw);
      var p: string := if |raw| > 0 && raw[0] == '/' then "/" else "";
      var q: string := if |raw| > 1 && raw[|raw| - 1] == '/' then "/" else "";
      assert raw == p + path + q;
      Some(path)
    else None
  }
}
