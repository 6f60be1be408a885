/** Adapter ids derived from OCI image references, and when they identify an image. */
module AdapterId {
  import opened Wrappers

  // Everything after the last slash.
  function LastSegment(imageRef: string): string {
    if '/' in imageRef then LastSegment(imageRef[1..]) else imageRef
  }

  function ColonsToHyphens(s: string): (r: string)
    ensures |r| == |s|
    ensures forall i :: 0 <= i < |s| ==> r[i] == if s[i] == ':' then '-' else s[i]
  {
    seq(|s|, i requires 0 <= i < |s| => if s[i] == ':' then '-' else s[i])
  }

  function DeriveAdapterId(imageRef: string): string {
    ColonsToHyphens(LastSegment(imageRef))
  }

  // A name or a tag: no colon and no slash.
  predicate IsPart(s: string) {
    ':' !in s && '/' !in s
  }

  // The reference `name:tag` in a registry; the prefix is empty or ends in a slash.
  function ImageRef(prefix: string, name: string, tag: string): string {
    prefix + (name + ":" + tag)
  }

  predicate IsPrefix(prefix: string) {
    prefix == "" || prefix[|prefix| - 1] == '/'
  }

  // The two parts around the last hyphen.
  function SplitAtLastHyphen(id: string): Option<(string, string)> {
    if id == "" then None
    else if id[|id| - 1] == '-' then Some((id[..|id| - 1], ""))
    else
      match SplitAtLastHyphen(id[..|id| - 1])
      case None => None
      case Some((name, tag)) => Some((name, tag + [id[|id| - 1]]))
  }

  lemma {:induction false} LastSegmentOf(prefix: string, segment: string)
    requires IsPrefix(prefix) && '/' !in segment
    ensures LastSegment(prefix + segment) == segment
  {
    if prefix == "" {
      assert prefix + segment == segment;
    } else {
      assert (prefix + segment)[|prefix| - 1] == '/';
      assert (prefix + segment)[1..] == prefix[1..] + segment;
      LastSegmentOf(prefix[1..], segment);
    }
  }

  lemma HyphenJoins(name: string, tag: string)
    requires IsPart(name) && IsPart(tag)
    ensures ColonsToHyphens(name + ":" + tag) == name + "-" + tag
  {
    var id := ColonsToHyphens(name + ":" + tag);
    assert forall i :: 0 <= i < |name| ==> id[i] == name[i];
    assert forall i :: |name| < i < |id| ==> id[i] == tag[i - |name| - 1];
  }

  // The id of `name:tag` in any registry is `name-tag`.
  lemma DerivedId(prefix: string, name: string, tag: string)
    requires IsPrefix(prefix) && IsPart(name) && IsPart(tag)
    ensures DeriveAdapterId(ImageRef(prefix, name, tag)) == name + "-" + tag
  {
    LastSegmentOf(prefix, name + ":" + tag);
    HyphenJoins(name, tag);
    hide LastSegment, ColonsToHyphens;
  }

  lemma {:induction false} SplitJoined(name: string, tag: string)
    requires '-' !in tag
    ensures SplitAtLastHyphen(name + "-" + tag) == Some((name, tag))
  {
    var id := name + "-" + tag;
    if tag == "" {
      assert id[..|id| - 1] == name;
    } else {
      var init, last := tag[..|tag| - 1], tag[|tag| - 1];
      SplitJoined(name, init);
      assert id[..|id| - 1] == name + "-" + init;
      assert init + [last] == tag;
    }
  }

  // With a hyphen-free tag, name and tag can be read back from the id.
  lemma RoundTrip(prefix: string, name: string, tag: string)
    requires IsPrefix(prefix) && IsPart(name) && IsPart(tag) && '-' !in tag
    ensures SplitAtLastHyphen(DeriveAdapterId(ImageRef(prefix, name, tag))) == Some((name, tag))
  {
    DerivedId(prefix, name, tag);
    SplitJoined(name, tag);
  }

  ghost predicate Collide(name: string, tag: string, name': string, tag': string) {
    DeriveAdapterId(ImageRef("", name, tag)) == DeriveAdapterId(ImageRef("", name', tag'))
  }

  // Two references collide exactly when one's id can be cut at another hyphen.
  lemma CollisionIff(prefix: string, prefix': string, name: string, tag: string, name': string, tag': string)
    requires IsPrefix(prefix) && IsPrefix(prefix') && IsPart(name) && IsPart(tag) && IsPart(name') && IsPart(tag')
    ensures DeriveAdapterId(ImageRef(prefix, name, tag)) == DeriveAdapterId(ImageRef(prefix', name', tag'))
            <==> name + "-" + tag == name' + "-" + tag'
  {
    DerivedId(prefix, name, tag);
    DerivedId(prefix', name', tag');
  }

  lemma HyphenPosition(name: string, tag: string)
    requires '-' !in name && '-' !in tag
    ensures forall k :: 0 <= k < |name + "-" + tag| && (name + "-" + tag)[k] == '-' ==> k == |name|
  {
    var id := name + "-" + tag;
    assert forall k :: 0 <= k < |name| ==> id[k] == name[k];
    assert forall k :: |name| < k < |id| ==> id[k] == tag[k - |name| - 1];
  }

  lemma OnlyHyphen(name: string, tag: string, name': string, tag': string)
    requires '-' !in name && '-' !in tag && name + "-" + tag == name' + "-" + tag'
    ensures name' == name && tag' == tag
  {
    var id := name + "-" + tag;
    HyphenPosition(name, tag);
    assert id[|name'|] == '-';
    assert name == id[..|name|] && name' == id[..|name|];
    assert tag == id[|name| + 1..] && tag' == id[|name| + 1..];
  }

  // Among all references of the form `name:tag`, no other pair has the same id exactly when
  // neither part contains a hyphen.  The other pair may be any two strings without colon and
  // slash; for the references that a grammar allows see `UniqueInIff`.
  lemma UniqueIff(name: string, tag: string)
    requires IsPart(name) && IsPart(tag)
    ensures (forall name', tag' :: IsPart(name') && IsPart(tag') && Collide(name, tag, name', tag') ==>
            name' == name && tag' == tag)
            <==> '-' !in name && '-' !in tag
  {
    if i :| 0 <= i < |name| && name[i] == '-' {
      var name', tag' := name[..i], name[i + 1..] + "-" + tag;
      assert name + "-" + tag == name' + "-" + tag';
      CollisionIff("", "", name, tag, name', tag');
      assert Collide(name, tag, name', tag') && |name'| < |name|;
    } else if i :| 0 <= i < |tag| && tag[i] == '-' {
      var name', tag' := name + "-" + tag[..i], tag[i + 1..];
      assert name + "-" + tag == name' + "-" + tag';
      CollisionIff("", "", name, tag, name', tag');
      assert Collide(name, tag, name', tag') && |name'| > |name|;
    } else {
      forall name', tag' | IsPart(name') && IsPart(tag') && Collide(name, tag, name', tag')
        ensures name' == name && tag' == tag
      {
        CollisionIff("", "", name, tag, name', tag');
        OnlyHyphen(name, tag, name', tag');
      }
    }
  }

  // A reference that is only a name is its own id.
  lemma PlainId(name: string)
    requires ':' !in name && '/' !in name
    ensures DeriveAdapterId(name) == name
  {
  }

  // -------- uniqueness among the references of a grammar --------

  datatype Grammar = Grammar(name: string -> bool, tag: string -> bool)

  ghost predicate IsGrammar(g: Grammar) {
    forall s :: g.name(s) || g.tag(s) ==> IsPart(s)
  }

  ghost predicate UniqueIn(g: Grammar, name: string, tag: string) {
    forall name', tag' :: g.name(name') && g.tag(tag') && Collide(name, tag, name', tag') ==>
      name' == name && tag' == tag
  }

  // The id can be cut at a hyphen other than the joining one, with two legal parts.
  predicate CutsAt(g: Grammar, name: string, tag: string, k: nat) {
    var id := name + "-" + tag;
    k < |id| && k != |name| && id[k] == '-' && g.name(id[..k]) && g.tag(id[k + 1..])
  }

  lemma UniqueInIff(g: Grammar, name: string, tag: string)
    requires IsGrammar(g) && g.name(name) && g.tag(tag)
    ensures UniqueIn(g, name, tag) <==> !exists k: nat :: CutsAt(g, name, tag, k)
  {
    var id := name + "-" + tag;
    if k: nat :| CutsAt(g, name, tag, k) {
      assert id == id[..k] + "-" + id[k + 1..];
      CollisionIff("", "", name, tag, id[..k], id[k + 1..]);
      assert Collide(name, tag, id[..k], id[k + 1..]) && |id[..k]| != |name|;
    } else {
      forall name', tag' | g.name(name') && g.tag(tag') && Collide(name, tag, name', tag') ensures name' == name
        && tag' == tag {
        CollisionIff("", "", name, tag, name', tag');
        assert id[..|name'|] == name' && id[|name'|] == '-' && id[|name'| + 1..] == tag';
        assert !CutsAt(g, name, tag, |name'|);
        assert id[..|name|] == name && id[|name| + 1..] == tag;
      }
    }
  }

  lemma NameCut(name: string, tag: string, i: nat)
    requires i < |name|
    ensures var id := name + "-" + tag;
            id[i] == name[i] && id[..i] == name[..i] && id[i + 1..] == name[i + 1..] + "-" + tag
  {
  }

  lemma TagCut(name: string, tag: string, i: nat)
    requires i < |tag|
    ensures var id, k := name + "-" + tag, |name| + 1 + i;
            id[k] == tag[i] && id[..k] == name + "-" + tag[..i] && id[k + 1..] == tag[i + 1..]
  {
  }

  ghost predicate CutsName(g: Grammar, name: string, tag: string, i: nat) {
    i < |name| && name[i] == '-' && g.name(name[..i]) && g.tag(name[i + 1..] + "-" + tag)
  }

  ghost predicate CutsTag(g: Grammar, name: string, tag: string, i: nat) {
    i < |tag| && tag[i] == '-' && g.name(name + "-" + tag[..i]) && g.tag(tag[i + 1..])
  }

  // A cut lies within the name or within the tag.
  lemma CutSides(g: Grammar, name: string, tag: string)
    ensures (exists k: nat :: CutsAt(g, name, tag, k)) <==>
            (exists i: nat :: CutsName(g, name, tag, i)) || (exists i: nat :: CutsTag(g, name, tag, i))
  {
    if k: nat :| CutsAt(g, name, tag, k) {
      if k < |name| {
        NameCut(name, tag, k);
        assert CutsName(g, name, tag, k);
      } else {
        TagCut(name, tag, k - |name| - 1);
        assert CutsTag(g, name, tag, k - |name| - 1);
      }
    }
    if i: nat :| CutsName(g, name, tag, i) {
      NameCut(name, tag, i);
      assert CutsAt(g, name, tag, i);
    }
    if i: nat :| CutsTag(g, name, tag, i) {
      TagCut(name, tag, i);
      assert CutsAt(g, name, tag, |name| + 1 + i);
    }
  }

  predicate IsLower(c: char) {
    'a' <= c <= 'z'
  }

  predicate IsUpper(c: char) {
    'A' <= c <= 'Z'
  }

  predicate IsDigit(c: char) {
    '0' <= c <= '9'
  }

  // -------- the references for which uniqueness is promised --------

  predicate IsPromisedName(s: string) {
    && 1 <= |s| <= 16 && IsLower(s[0])
    && forall i :: 1 <= i < |s| ==> IsLower(s[i]) || IsDigit(s[i]) || s[i] == '-'
  }

  predicate IsPromisedTag(s: string) {
    && 1 <= |s| <= 11 && (IsLower(s[0]) || IsDigit(s[0]))
    && forall i :: 1 <= i < |s| ==> IsLower(s[i]) || IsDigit(s[i]) || s[i] == '-' || s[i] == '.'
  }

  const PROMISED := Grammar(IsPromisedName, IsPromisedTag)

  lemma PromisedNameCut(name: string, tag: string, i: nat)
    requires IsPromisedName(name) && IsPromisedTag(tag) && i < |name| && name[i] == '-'
    ensures i > 0
    ensures CutsName(PROMISED, name, tag, i) <==>
            i + 1 < |name| && name[i + 1] != '-' && |name| - i + |tag| <= 11
  {
    var t := name[i + 1..] + "-" + tag;
    assert |t| == |name| - i + |tag|;
    assert forall k :: 0 <= k < |t| ==>
             t[k] == if k < |name| - i - 1 then name[i + 1 + k] else if k == |name| - i - 1 then '-'
               else tag[k - (|name| - i)];
  }

  lemma PromisedTagCut(name: string, tag: string, i: nat)
    requires IsPromisedName(name) && IsPromisedTag(tag) && i < |tag| && tag[i] == '-'
    ensures i > 0
    ensures CutsTag(PROMISED, name, tag, i) <==>
            i + 1 < |tag| && tag[i + 1] != '-' && tag[i + 1] != '.' && '.' !in tag[..i] && |name| + 1 + i <= 16
  {
    var n := name + "-" + tag[..i];
    assert forall k :: 0 <= k < |n| ==>
      n[k] == if k < |name| then name[k] else if k == |name| then '-' else tag[k - |name| - 1];
    if IsPromisedName(n) {
      assert forall k :: 0 <= k < i ==> n[|name| + 1 + k] == tag[k];
    }
  }

  // The promise is kept exactly for pairs without such a hyphen: one in the name that is
  // followed by a letter or digit and leaves a tag short enough, or one in the tag that is
  // followed by a letter or digit, preceded by no dot, and leaves a name short enough.
  lemma PromisedUniqueIff(name: string, tag: string)
    requires IsPromisedName(name) && IsPromisedTag(tag)
    ensures UniqueIn(PROMISED, name, tag) <==>
              && (forall i :: 0 < i < |name| - 1 && name[i] == '-' && name[i + 1] != '-' ==> |name| - i + |tag| > 11)
              && (forall i :: 0 < i < |tag| - 1 && tag[i] == '-' && tag[i + 1] !in {'-', '.'} && '.' !in tag[..i] ==>
                    |name| + 1 + i > 16)
  {
    UniqueInIff(PROMISED, name, tag);
    CutSides(PROMISED, name, tag);
    hide UniqueIn, CutsAt, IsPromisedName, IsPromisedTag;
    forall i: nat | i < |name| && name[i] == '-'
      ensures 0 < i
      ensures CutsName(PROMISED, name, tag, i) <==> i + 1 < |name| && name[i + 1] != '-' && |name| - i + |tag| <= 11
    {
      PromisedNameCut(name, tag, i);
    }
    forall i: nat | i < |tag| && tag[i] == '-'
      ensures 0 < i
      ensures CutsTag(PROMISED, name, tag, i) <==>
              i + 1 < |tag| && tag[i + 1] != '-' && tag[i + 1] != '.' && '.' !in tag[..i] && |name| + 1 + i <= 16
    {
      PromisedTagCut(name, tag, i);
    }
  }

  // -------- all valid image references --------

  predicate IsAlphanumeric(c: char) {
    IsLower(c) || IsDigit(c)
  }

  // Two separators in a row: hyphens, or the only two underscores.
  predicate IsOciRun(s: string, i: nat)
    requires 0 < i < |s| - 1
  {
    s[i + 1] == s[i] && s[i] != '.' && (s[i] == '_' ==> s[i - 1] != '_')
  }

  // A path component of an OCI image name: lower-case alphanumerics, separated by a dot, one
  // or two underscores, or hyphens.
  predicate IsOciName(s: string) {
    && s != "" && IsAlphanumeric(s[0]) && IsAlphanumeric(s[|s| - 1])
    && (forall i :: 0 <= i < |s| ==> IsAlphanumeric(s[i]) || s[i] in {'.', '_', '-'})
    && forall i :: 0 < i < |s| - 1 && !IsAlphanumeric(s[i]) && !IsAlphanumeric(s[i + 1]) ==> IsOciRun(s, i)
  }

  predicate IsOciTag(s: string) {
    && 1 <= |s| <= 128 && s[0] != '.' && s[0] != '-'
    && forall i :: 0 <= i < |s| ==> IsAlphanumeric(s[i]) || IsUpper(s[i]) || s[i] in {'.', '_', '-'}
  }

  const OCI := Grammar(IsOciName, IsOciTag)

  lemma OciNameCut(name: string, tag: string, i: nat)
    requires IsOciName(name) && IsOciTag(tag) && i < |name| && name[i] == '-'
    ensures 0 < i < |name| - 1
    ensures CutsName(OCI, name, tag, i) <==>
            name[i - 1] != '-' && name[i + 1] != '-' && |name| - i + |tag| <= 128
  {
    var t := name[i + 1..] + "-" + tag;
    assert |t| == |name| - i + |tag|;
    assert forall k :: 0 <= k < |t| ==>
             t[k] == if k < |name| - i - 1 then name[i + 1 + k] else if k == |name| - i - 1 then '-'
               else tag[k - (|name| - i)];
  }

  lemma OciJoined(name: string, rest: string)
    requires IsOciName(name) && IsOciName(rest)
    ensures IsOciName(name + "-" + rest)
  {
    var n := name + "-" + rest;
    assert forall k :: 0 <= k < |name| ==> n[k] == name[k];
    assert forall k :: |name| < k < |n| ==> n[k] == rest[k - |name| - 1];
    forall i | 0 < i < |n| - 1 && !IsAlphanumeric(n[i]) && !IsAlphanumeric(n[i + 1]) ensures IsOciRun(n, i) {
      if i < |name| - 1 {
        assert IsOciRun(name, i);
      } else {
        assert IsOciRun(rest, i - |name| - 1);
      }
    }
  }

  lemma OciSuffix(n: string, m: nat)
    requires IsOciName(n) && m < |n| && IsAlphanumeric(n[m])
    ensures IsOciName(n[m..])
  {
    hide IsAlphanumeric;
    var rest := n[m..];
    forall i | 0 < i < |rest| - 1 && !IsAlphanumeric(rest[i])
      && !IsAlphanumeric(rest[i + 1]) ensures IsOciRun(rest, i) {
      assert rest[i] == n[m + i] && rest[i + 1] == n[m + i + 1];
      assert IsOciRun(n, m + i);
    }
  }

  lemma OciPart(name: string, rest: string)
    requires IsOciName(name) && rest != "" && rest[0] != '-' && IsOciName(name + "-" + rest)
    ensures IsOciName(rest)
  {
    var n, m := name + "-" + rest, |name|;
    assert n[m] == '-' && n[m + 1] == rest[0] && n[m + 1..] == rest;
    assert IsAlphanumeric(n[m + 1]) by {
      assert m + 1 < |n| - 1 ==> !IsAlphanumeric(n[m + 1]) ==> IsOciRun(n, m);
    }
    OciSuffix(n, m + 1);
  }

  // Two names joined by a hyphen are a name.
  lemma OciNamesJoin(name: string, rest: string)
    requires IsOciName(name) && rest != "" && rest[0] != '-'
    ensures IsOciName(name + "-" + rest) <==> IsOciName(rest)
  {
    if IsOciName(rest) {
      OciJoined(name, rest);
    }
    if IsOciName(name + "-" + rest) {
      OciPart(name, rest);
    }
  }

  lemma OciTagCut(name: string, tag: string, i: nat)
    requires IsOciName(name) && IsOciTag(tag) && i < |tag| && tag[i] == '-'
    ensures i > 0
    ensures CutsTag(OCI, name, tag, i) <==>
            i + 1 < |tag| && tag[i + 1] != '-' && tag[i + 1] != '.' && IsOciName(tag[..i])
  {
    OciNamesJoin(name, tag[..i]);
  }

  // Among valid references a name and tag are unique exactly when the name has no hyphen
  // between two alphanumerics that leaves a tag short enough, and the tag has no hyphen
  // with a name before it and a tag after it.
  lemma OciUniqueIff(name: string, tag: string)
    requires IsOciName(name) && IsOciTag(tag)
    ensures UniqueIn(OCI, name, tag) <==>
              && (forall i :: 0 < i < |name| - 1 && name[i] == '-' && name[i - 1] != '-' && name[i + 1] != '-' ==>
                |name| - i + |tag| > 128)
              && (forall i :: 0 < i < |tag| - 1 && tag[i] == '-' && tag[i + 1] != '-' && tag[i + 1] != '.' ==>
                !IsOciName(tag[..i]))
  {
    UniqueInIff(OCI, name, tag);
    CutSides(OCI, name, tag);
    hide UniqueIn, CutsAt, IsOciName, IsOciTag;
    forall i: nat | i < |name| && name[i] == '-'
      ensures 0 < i < |name| - 1
      ensures CutsName(OCI, name, tag, i) <==> name[i - 1] != '-' && name[i + 1] != '-' && |name| - i + |tag| <= 128
    {
      OciNameCut(name, tag, i);
    }
    forall i: nat | i < |tag| && tag[i] == '-'
      ensures 0 < i
      ensures CutsTag(OCI, name, tag, i) <==>
              i + 1 < |tag| && tag[i + 1] != '-' && tag[i + 1] != '.' && IsOciName(tag[..i])
    {
      OciTagCut(name, tag, i);
    }
  }

  lemma NoColons(s: string)
    requires ':' !in s
    ensures ColonsToHyphens(s) == s
  {
  }

  // Uniqueness concerns name and tag only: the registry is dropped, and a reference without
  // a tag can have the id of one with a tag.
  lemma OtherCollisions(prefix: string, prefix': string, name: string, tag: string)
    requires IsPrefix(prefix) && IsPrefix(prefix') && IsPart(name) && IsPart(tag)
    ensures DeriveAdapterId(ImageRef(prefix, name, tag)) == DeriveAdapterId(ImageRef(prefix', name, tag))
    ensures DeriveAdapterId(prefix' + (name + "-" + tag)) == DeriveAdapterId(ImageRef(prefix, name, tag))
  {
    CollisionIff(prefix, prefix', name, tag, name, tag);
    DerivedId(prefix, name, tag);
    LastSegmentOf(prefix', name + "-" + tag);
    NoColons(name + "-" + tag);
    hide ColonsToHyphens, LastSegment, ImageRef;
  }

  // A collision between two plausible references.
  lemma CollisionExample()
    ensures DeriveAdapterId("registry.example.com/a:b-c") == DeriveAdapterId("registry.example.com/a-b:c")
    ensures "registry.example.com/a:b-c" != "registry.example.com/a-b:c"
    ensures IsPromisedName("a") && IsPromisedTag("b-c") && IsPromisedName("a-b") && IsPromisedTag("c")
  {
    hide DeriveAdapterId;
    var prefix := "registry.example.com/";
    DerivedId(prefix, "a", "b-c");
    DerivedId(prefix, "a-b", "c");
    assert ImageRef(prefix, "a", "b-c") == "registry.example.com/a:b-c";
    assert ImageRef(prefix, "a-b", "c") == "registry.example.com/a-b:c";
    assert "a" + "-" + "b-c" == "a-b" + "-" + "c";
  }
}
