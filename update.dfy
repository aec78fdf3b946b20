/** The actor update `Tokenizer._updateObject` builds once both images are
    uploaded: the portrait always points at the uploaded avatar, with a
    timestamp query against caching; the token image points at the uploaded
    token for an ordinary actor, and at a wildcard pattern for an actor
    whose token art is drawn from a numbered series. */
module Update {
  import opened Opt
  import opened Text
  import opened Wildcard
  import opened Names

  /** The parts of the actor record the tokenizer reads or writes
      (`name`, `data.type`, `data.img`, `data.token.img`,
      `data.token.randomImg`). */
  datatype Actor = Actor(name: string, actorType: string, img: string, tokenImg: string, randomImg: bool)

  /** A partial update: `token` is absent when the token image is left as
      it is. */
  datatype TokenPatch = TokenPatch(img: string)
  datatype ActorUpdate = ActorUpdate(img: string, token: Option<TokenPatch>)

  /** `url + "?" + +new Date()`, the timestamp given as milliseconds. */
  function CacheBusted(url: string, stamp: nat): (r: string)
    ensures |r| >= |url| + 2 && r[..|url|] == url && r[|url|] == '?'
    ensures AllDigits(r[|url| + 1..])
  {
    url + "?" + DecimalString(stamp)
  }

  /** Splits a URL at its last `?` into the part before and the query after. */
  function SplitAtLastQuery(s: string): (r: Option<(string, string)>)
    ensures r.Some? ==> s == r.value.0 + "?" + r.value.1 && '?' !in r.value.1
    ensures r.None? ==> '?' !in s
    decreases |s|
  {
    if s == [] then None
    else if s[|s| - 1] == '?' then Some((s[..|s| - 1], ""))
    else match SplitAtLastQuery(s[..|s| - 1])
      case None => None
      case Some(p) => Some((p.0, p.1 + [s[|s| - 1]]))
  }

  lemma {:induction false} SplitAtLastQueryOf(url: string, query: string)
    requires '?' !in query
    ensures SplitAtLastQuery(url + "?" + query) == Some((url, query))
    decreases |query|
  {
    var s := url + "?" + query;
    if query == [] {
      assert s[..|s| - 1] == url;
    } else {
      var q := query[..|query| - 1];
      assert s[..|s| - 1] == url + "?" + q;
      assert query == q + [query[|query| - 1]];
      SplitAtLastQueryOf(url, q);
    }
  }

  /** The cache-busting suffix hides nothing: the uploaded URL and the
      timestamp can both be read back. */
  lemma CacheBustedRoundTrip(url: string, stamp: nat)
    ensures SplitAtLastQuery(CacheBusted(url, stamp)) == Some((url, DecimalString(stamp)))
    ensures DigitsValue(SplitAtLastQuery(CacheBusted(url, stamp)).value.1) == stamp
  {
    assert '?' !in DecimalString(stamp);
    SplitAtLastQueryOf(url, DecimalString(stamp));
    DecimalStringRoundTrip(stamp);
  }

  /** The wildcard pattern written for an actor whose token image has no
      `*` yet, named with the line-82 slug. */
  function FreshPattern(name: string, current: string): (pattern: string)
    ensures '*' in pattern
  {
    var pattern := current + "/" + NameSlug(name) + ".Token-*.png";
    assert pattern[|pattern| - 5] == '*';
    pattern
  }

  /** The update of lines 76-96. `avatarUrl` and `tokenUrl` are what the two
      uploads returned; the two timestamps are taken separately, as the
      source reads the clock once for each field. */
  function BuildUpdate(actor: Actor, current: string, avatarUrl: string, tokenUrl: string,
                       avatarStamp: nat, tokenStamp: nat): (u: ActorUpdate)
    ensures u.token.Some? <==> !actor.randomImg || '*' !in actor.tokenImg
  {
    ActorUpdate(
      CacheBusted(avatarUrl, avatarStamp),
      if !actor.randomImg then Some(TokenPatch(CacheBusted(tokenUrl, tokenStamp)))
      else if '*' !in actor.tokenImg then Some(TokenPatch(FreshPattern(actor.name, current)))
      else None)
  }

  /** The host's merge of a partial update into the record: the fields the
      update names change, nothing else does. */
  function ApplyUpdate(actor: Actor, u: ActorUpdate): (a: Actor)
    ensures a.name == actor.name && a.actorType == actor.actorType && a.randomImg == actor.randomImg
    ensures a.img == u.img
    ensures u.token.None? ==> a.tokenImg == actor.tokenImg
    ensures u.token.Some? ==> a.tokenImg == u.token.value.img
  {
    actor.(img := u.img, tokenImg := if u.token.Some? then u.token.value.img else actor.tokenImg)
  }

  /** Submitting: both uploads must have produced a URL (`None` is a failed
      upload, which rejects the promise before the update is sent); then the
      whole update is applied at once. */
  function Submit(actor: Actor, current: string, avatarUpload: Option<string>, tokenUpload: Option<string>,
                  avatarStamp: nat, tokenStamp: nat): (a: Actor)
    ensures avatarUpload.None? || tokenUpload.None? ==> a == actor
    ensures avatarUpload.Some? && tokenUpload.Some? ==>
      a == ApplyUpdate(actor, BuildUpdate(actor, current, avatarUpload.value, tokenUpload.value, avatarStamp, tokenStamp))
  {
    if avatarUpload.None? || tokenUpload.None? then actor
    else ApplyUpdate(actor, BuildUpdate(actor, current, avatarUpload.value, tokenUpload.value, avatarStamp, tokenStamp))
  }

  /** The portrait always becomes the uploaded avatar with its timestamp. */
  lemma PortraitIsUploadedAvatar(actor: Actor, current: string, avatarUrl: string, tokenUrl: string,
                                 avatarStamp: nat, tokenStamp: nat)
    ensures var a := ApplyUpdate(actor, BuildUpdate(actor, current, avatarUrl, tokenUrl, avatarStamp, tokenStamp));
      SplitAtLastQuery(a.img) == Some((avatarUrl, DecimalString(avatarStamp)))
  {
    CacheBustedRoundTrip(avatarUrl, avatarStamp);
  }

  /** An ordinary actor's token becomes the uploaded token file with its
      timestamp; it is a single file, not a pattern, whenever the upload's
      URL has no `*`. */
  lemma OrdinaryTokenIsUploadedFile(actor: Actor, current: string, avatarUrl: string, tokenUrl: string,
                                    avatarStamp: nat, tokenStamp: nat)
    requires !actor.randomImg
    ensures var a := ApplyUpdate(actor, BuildUpdate(actor, current, avatarUrl, tokenUrl, avatarStamp, tokenStamp));
      SplitAtLastQuery(a.tokenImg) == Some((tokenUrl, DecimalString(tokenStamp))) &&
      ('*' !in tokenUrl ==> '*' !in a.tokenImg)
  {
    CacheBustedRoundTrip(tokenUrl, tokenStamp);
    assert '*' !in DecimalString(tokenStamp);
  }

  /** A wildcard actor's token image is a pattern after every submit, and it
      does not depend on which file the token was uploaded to. */
  lemma WildcardTokenStaysPattern(actor: Actor, current: string, avatarUrl: string,
                                  tokenUrl: string, tokenUrl': string,
                                  avatarStamp: nat, tokenStamp: nat, tokenStamp': nat)
    requires actor.randomImg
    ensures '*' in ApplyUpdate(actor, BuildUpdate(actor, current, avatarUrl, tokenUrl, avatarStamp, tokenStamp)).tokenImg
    ensures BuildUpdate(actor, current, avatarUrl, tokenUrl, avatarStamp, tokenStamp) ==
            BuildUpdate(actor, current, avatarUrl, tokenUrl', avatarStamp, tokenStamp')
  {
  }

  /** A pattern the actor already has is kept as it is, so submitting twice
      leaves the token image where the first submit put it. */
  lemma WildcardPatternKept(actor: Actor, current: string, avatarUrl: string, tokenUrl: string,
                            avatarStamp: nat, tokenStamp: nat)
    requires actor.randomImg
    ensures '*' in actor.tokenImg ==>
      ApplyUpdate(actor, BuildUpdate(actor, current, avatarUrl, tokenUrl, avatarStamp, tokenStamp)).tokenImg == actor.tokenImg
    ensures var once := ApplyUpdate(actor, BuildUpdate(actor, current, avatarUrl, tokenUrl, avatarStamp, tokenStamp));
      ApplyUpdate(once, BuildUpdate(once, current, avatarUrl, tokenUrl, avatarStamp, tokenStamp)).tokenImg == once.tokenImg
  {
  }

  /** The pattern stored for a wildcard actor is the one the upload target
      was resolved in — provided the name slug `Utils.makeSlug` gave the
      resolver is the line-82 slug whenever a fresh pattern is made. So the
      file just uploaded is a member of the stored series. */
  lemma StoredPatternIsResolverTemplate(actor: Actor, current: string, slug: string, avatarUrl: string,
                                        tokenUrl: string, avatarStamp: nat, tokenStamp: nat,
                                        files: seq<string>, k: nat)
    requires actor.randomImg
    requires '*' !in actor.tokenImg ==> slug == NameSlug(actor.name)
    requires IsFirstFree(ChooseTemplate(actor.tokenImg, current, slug), files, k)
    ensures var a := ApplyUpdate(actor, BuildUpdate(actor, current, avatarUrl, tokenUrl, avatarStamp, tokenStamp));
      a.tokenImg == ChooseTemplate(actor.tokenImg, current, slug) &&
      IsFirstFree(a.tokenImg, files, k)
  {
  }

  /** A submit whose uploads both succeeded brings the portrait and (where
      the source sets it) the token image up to date together; a submit with
      a failed upload leaves the record untouched. Never one without the
      other. */
  lemma SubmitIsAtomic(actor: Actor, current: string, avatarUpload: Option<string>, tokenUpload: Option<string>,
                       avatarStamp: nat, tokenStamp: nat)
    ensures var a := Submit(actor, current, avatarUpload, tokenUpload, avatarStamp, tokenStamp);
      avatarUpload.Some? && tokenUpload.Some? ==>
        SplitAtLastQuery(a.img) == Some((avatarUpload.value, DecimalString(avatarStamp))) &&
        (!actor.randomImg ==> SplitAtLastQuery(a.tokenImg) == Some((tokenUpload.value, DecimalString(tokenStamp)))) &&
        (actor.randomImg ==> '*' in a.tokenImg)
    ensures avatarUpload.None? || tokenUpload.None? ==>
      Submit(actor, current, avatarUpload, tokenUpload, avatarStamp, tokenStamp) == actor
  {
    if avatarUpload.Some? && tokenUpload.Some? {
      PortraitIsUploadedAvatar(actor, current, avatarUpload.value, tokenUpload.value, avatarStamp, tokenStamp);
      if !actor.randomImg {
        OrdinaryTokenIsUploadedFile(actor, current, avatarUpload.value, tokenUpload.value, avatarStamp, tokenStamp);
      }
    }
  }
}
