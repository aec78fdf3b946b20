/** The target filename computed by `Tokenizer._getFilename`: a plain
    `<slug>.<suffix>.png` name, or, for the token of an actor whose token
    image is a wildcard series, the first numbered file of the series that
    the directory listing does not hold yet. */
module Wildcard {
  import opened Text

  /** The pattern the next free file is searched in: the actor's token image
      itself when it already contains a `*`, otherwise a fresh series in the
      upload directory `current`, named after the slug. */
  function ChooseTemplate(tokenImg: string, current: string, slug: string): (t: string)
    ensures '*' in t
    ensures '*' in tokenImg ==> t == tokenImg
    ensures '*' !in tokenImg ==> t == current + "/" + slug + ".Token-*.png"
  {
    if '*' in tokenImg then tokenImg
    else
      var t := current + "/" + slug + ".Token-*.png";
      assert t[|t| - 5] == '*';
      t
  }

  /** The filename used for everything that is not a wildcard token. */
  function PlainFilename(slug: string, suffix: string): (name: string)
    ensures |name| == |slug| + |suffix| + 5
    ensures name[..|slug|] == slug && name[|slug|] == '.' && name[|name| - 4..] == ".png"
    ensures name[|slug| + 1..|name| - 4] == suffix
    ensures '*' !in slug && '*' !in suffix ==> '*' !in name
  {
    slug + "." + suffix + ".png"
  }

  /** For one actor the suffix tells the plain files apart, so the avatar
      and the token of an ordinary actor never overwrite each other. */
  lemma PlainFilenameSuffixes(slug: string, suffix: string, suffix': string)
    ensures PlainFilename(slug, suffix) == PlainFilename(slug, suffix') ==> suffix == suffix'
    ensures PlainFilename(slug, "Avatar") != PlainFilename(slug, "Token")
  {
    var n, n' := PlainFilename(slug, suffix), PlainFilename(slug, suffix');
    assert n[|slug| + 1..|n| - 4] == suffix;
    assert n'[|slug| + 1..|n'| - 4] == suffix';
    var a, t := PlainFilename(slug, "Avatar"), PlainFilename(slug, "Token");
    assert |a| != |t|;
  }

  /** The file probed for index `n`: every `*` replaced by the index. */
  function Candidate(template: string, n: nat): (name: string)
    ensures '*' !in name
  {
    ReplaceStars(template, IndexString(n))
  }

  /** Distinct indices probe distinct files. */
  lemma CandidateInjective(template: string, a: nat, b: nat)
    requires '*' in template
    ensures a != b ==> Candidate(template, a) != Candidate(template, b)
  {
    if Candidate(template, a) == Candidate(template, b) {
      ReplaceStarsInjective(template, IndexString(a), IndexString(b));
      IndexStringInjective(a, b);
    }
  }

  /** `k` is the index the search settles on: its candidate is not listed,
      and the candidate of every smaller positive index is. */
  predicate IsFirstFree(template: string, files: seq<string>, k: nat) {
    k >= 1 && Candidate(template, k) !in files &&
    forall i :: 1 <= i < k ==> Candidate(template, i) in files
  }

  /** At most one index is the first free one, so the resolved filename is a
      function of the template and the listing alone. */
  lemma FirstFreeUnique(template: string, files: seq<string>, a: nat, b: nat)
    requires IsFirstFree(template, files, a) && IsFirstFree(template, files, b)
    ensures a == b
  {
  }

  /** With nothing listed the search stops at index 1, that is at `001`. */
  lemma FirstFreeOfEmptyListing(template: string, k: nat)
    ensures IsFirstFree(template, [], k) <==> k == 1
    ensures Candidate(template, 1) == ReplaceStars(template, "001")
  {
  }

  /** For a template with a single `*`, the candidate is the text around
      the `*` with the index in its place. */
  lemma CandidateOfSingleStar(before: string, after: string, n: nat)
    requires '*' !in before && '*' !in after
    ensures Candidate(before + "*" + after, n) == before + IndexString(n) + after
  {
    ReplaceStarsConcat(before + "*", after, IndexString(n));
    ReplaceStarsConcat(before, "*", IndexString(n));
  }

  /** A series `<before>*<after>` with nothing listed resolves to
      `<before>001<after>`, e.g. `d/gob.Token-*.png` to `d/gob.Token-001.png`. */
  lemma EmptyListingGivesFirst(before: string, after: string)
    requires '*' !in before && '*' !in after
    ensures IsFirstFree(before + "*" + after, [], 1)
    ensures Candidate(before + "*" + after, 1) == before + "001" + after
  {
    CandidateOfSingleStar(before, after, 1);
    IndexStringFirstThree();
  }

  /** With `<before>001<after>` and `<before>002<after>` listed, the search
      stops at `<before>003<after>` (e.g. with `gob.Token-001.png` and
      `gob.Token-002.png` listed, the next file is `gob.Token-003.png`). */
  lemma TwoTakenGivesThird(before: string, after: string)
    requires '*' !in before && '*' !in after
    ensures var t := before + "*" + after;
      IsFirstFree(t, [before + "001" + after, before + "002" + after], 3) &&
      Candidate(t, 3) == before + "003" + after
  {
    var t := before + "*" + after;
    var files := [before + "001" + after, before + "002" + after];
    IndexStringFirstThree();
    CandidateOfSingleStar(before, after, 1);
    CandidateOfSingleStar(before, after, 2);
    CandidateOfSingleStar(before, after, 3);
    var third := before + "003" + after;
    assert third[|before|..|before| + 3] == "003";
    assert files[0][|before|..|before| + 3] == "001";
    assert files[1][|before|..|before| + 3] == "002";
    assert third !in files;
    forall i | 1 <= i < 3
      ensures Candidate(t, i) in files
    {
      assert i == 1 || i == 2;
    }
  }

  /** The candidates of indices 1..n. */
  ghost function CandidateSet(template: string, n: nat): set<string>
    decreases n
  {
    if n == 0 then {} else CandidateSet(template, n - 1) + {Candidate(template, n)}
  }

  lemma {:induction false} CandidateSetExcludesLater(template: string, m: nat, n: nat)
    requires '*' in template && m < n
    ensures Candidate(template, n) !in CandidateSet(template, m)
    decreases m
  {
    if m > 0 {
      CandidateSetExcludesLater(template, m - 1, n);
      if Candidate(template, m) == Candidate(template, n) {
        CandidateInjective(template, m, n);
      }
    }
  }

  lemma {:induction false} CandidateSetSize(template: string, n: nat)
    requires '*' in template
    ensures |CandidateSet(template, n)| == n
    decreases n
  {
    if n > 0 {
      CandidateSetSize(template, n - 1);
      CandidateSetExcludesLater(template, n - 1, n);
    }
  }

  lemma {:induction false} CandidateSetListed(template: string, files: seq<string>, n: nat)
    requires forall i :: 1 <= i <= n ==> Candidate(template, i) in files
    ensures CandidateSet(template, n) <= set f | f in files
    decreases n
  {
    if n > 0 {
      CandidateSetListed(template, files, n - 1);
    }
  }

  lemma {:induction false} ListedSetSize(files: seq<string>)
    ensures |set f | f in files| <= |files|
    decreases |files|
  {
    if files != [] {
      var rest := files[1..];
      ListedSetSize(rest);
      assert (set f | f in files) == (set f | f in rest) + {files[0]};
    }
  }

  lemma SubsetSize<T>(a: set<T>, b: set<T>)
    requires a <= b
    ensures |a| <= |b|
  {
    assert b == a + (b - a);
  }

  /** Pigeonhole: a listing of `|files|` names cannot hold more than
      `|files|` distinct candidates, so the search ends by index |files|+1. */
  lemma ListedCandidatesBound(template: string, files: seq<string>, n: nat)
    requires '*' in template
    requires forall i :: 1 <= i <= n ==> Candidate(template, i) in files
    ensures n <= |files|
  {
    CandidateSetSize(template, n);
    CandidateSetListed(template, files, n);
    SubsetSize(CandidateSet(template, n), set f | f in files);
    ListedSetSize(files);
  }

  /** The do-while loop of `_getFilename`: try index 1, 2, ... until the
      candidate is not in the listing. */
  method NextFreeFilename(template: string, files: seq<string>) returns (target: string, count: nat)
    requires '*' in template
    ensures IsFirstFree(template, files, count)
    ensures target == Candidate(template, count)
    ensures target !in files && '*' !in target
    ensures count <= |files| + 1
  {
    // first pass of the do-while body
    count := 1;
    target := ReplaceStars(template, IndexString(count));
    while target in files
      invariant 1 <= count <= |files| + 1
      invariant target == Candidate(template, count)
      invariant forall i :: 1 <= i < count ==> Candidate(template, i) in files
      decreases |files| + 1 - count
    {
      ListedCandidatesBound(template, files, count);
      count := count + 1;
      target := ReplaceStars(template, IndexString(count));
    }
  }

  /** The filename wanted for the image with the given suffix. `slug` is the
      actor name as `Utils.makeSlug` returns it, `current` the configured
      upload directory, and `browse` the host's listing of the files that
      match a pattern; it is only consulted for a wildcard token. */
  method GetFilename(suffix: string, isWildcard: bool, tokenImg: string, current: string,
                     slug: string, browse: string -> seq<string>) returns (filename: string)
    ensures !(suffix == "Token" && isWildcard) ==> filename == PlainFilename(slug, suffix)
    ensures suffix == "Token" && isWildcard ==>
      filename !in browse(ChooseTemplate(tokenImg, current, slug)) && '*' !in filename
    ensures suffix == "Token" && isWildcard ==>
      var template := ChooseTemplate(tokenImg, current, slug);
      exists k :: IsFirstFree(template, browse(template), k) && filename == Candidate(template, k)
  {
    if suffix == "Token" && isWildcard {
      var template := ChooseTemplate(tokenImg, current, slug);
      var files := browse(template);
      var count;
      filename, count := NextFreeFilename(template, files);
    } else {
      filename := PlainFilename(slug, suffix);
    }
  }
}
