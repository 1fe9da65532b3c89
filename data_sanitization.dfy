/** Removal of HTML tags from submitted form data: for POST and PUT requests,
    every value of the POST dictionary has each leftmost, non-overlapping match
    of the pattern `<[^>]*>` deleted; the request then goes on. */
module DataSanitization {
  import opened Http

  /** `re.sub(r'<[^>]*>', '', s)`: scanning from the left, a `<` that has a `>`
      somewhere after it starts a match that runs to the first such `>` and is
      dropped; any other character is kept and the scan moves on by one. */
  function StripTags(s: string): (r: string)
    ensures |r| <= |s|
    ensures forall c :: c in r ==> c in s
    ensures TagFree(r)
    decreases |s|
  {
    if s == [] then []
    else if s[0] == '<' && '>' in s[1..] then
      var close := 1 + FirstIndex(s[1..], '>');
      StripTags(s[close + 1..])
    else
      [s[0]] + StripTags(s[1..])
  }

  /** No `<` is followed, anywhere later, by a `>`: the pattern has no match. */
  predicate TagFree(s: string)
    decreases |s|
  {
    s == [] || ((s[0] == '<' ==> '>' !in s[1..]) && TagFree(s[1..]))
  }

  /** A value without any `<` is left exactly as it was. */
  lemma {:induction false} NoTagUnchanged(s: string)
    requires '<' !in s
    ensures StripTags(s) == s
    decreases |s|
  {
    if s != [] {
      NoTagUnchanged(s[1..]);
    }
  }

  /** A value the pattern does not match is left exactly as it was. */
  lemma {:induction false} TagFreeUnchanged(s: string)
    requires TagFree(s)
    ensures StripTags(s) == s
    decreases |s|
  {
    if s != [] {
      TagFreeUnchanged(s[1..]);
    }
  }

  /** Sanitising twice is the same as sanitising once. */
  lemma StripTagsIdempotent(s: string)
    ensures StripTags(StripTags(s)) == StripTags(s)
  {
    TagFreeUnchanged(StripTags(s));
  }

  /** The POST dictionary with every value sanitised: the same keys, each
      value replaced by its sanitised self. */
  function SanitizedPost(post: map<string, string>): (r: map<string, string>)
    ensures r.Keys == post.Keys
    ensures forall k :: k in r ==> r[k] == StripTags(post[k])
  {
    map k | k in post :: StripTags(post[k])
  }

  predicate Sanitizes(httpMethod: string)
  {
    httpMethod in ["POST", "PUT"]
  }

  /** The filter: POST and PUT requests have their POST values rewritten one
      key at a time; any other request is forwarded untouched. The request is
      always forwarded. */
  method Call(request: Request) returns (step: Step)
    ensures step.Forward?
    ensures Sanitizes(request.httpMethod) ==> step.request == request.(post := SanitizedPost(request.post))
    ensures !Sanitizes(request.httpMethod) ==> step.request == request
  {
    var req := request;
    if request.httpMethod == "POST" || request.httpMethod == "PUT" {
      var post := request.post;
      var keys := post.Keys;
      while keys != {}
        invariant keys <= request.post.Keys
        invariant post.Keys == request.post.Keys
        invariant forall k :: k in post && k !in keys ==> post[k] == StripTags(request.post[k])
        invariant forall k :: k in keys ==> post[k] == request.post[k]
        decreases keys
      {
        var key :| key in keys;
        post := post[key := StripTags(post[key])];
        keys := keys - {key};
      }
      req := req.(post := post);
    }
    step := Forward(req);
  }

  /** Sanitising the POST data of a sanitised request changes nothing more. */
  lemma SanitizedPostIdempotent(post: map<string, string>)
    ensures SanitizedPost(SanitizedPost(post)) == SanitizedPost(post)
  {
    forall k | k in post ensures StripTags(StripTags(post[k])) == StripTags(post[k]) {
      StripTagsIdempotent(post[k]);
    }
  }

  /** A small instance: the tag pair around a word goes, the word stays; a
      `<` with no `>` after it stays. */
  lemma StripsExample()
    ensures StripTags("<b>hi</b>") == "hi"
    ensures StripTags("a<b") == "a<b"
  {
    assert FirstIndex("b>hi</b>", '>') == 1 by {
      assert "b>hi</b>"[1..][0] == '>';
    }
    assert "<b>hi</b>"[3..] == "hi</b>";
    assert FirstIndex("/b>", '>') == 2 by {
      assert "/b>"[1..] == "b>";
      assert "b>"[1..] == ">";
    }
    assert StripTags("</b>") == "" by {
      assert "</b>"[1..] == "/b>";
      assert "</b>"[4..] == "";
    }
    assert StripTags("i</b>") == "i" by {
      assert "i</b>"[1..] == "</b>";
    }
    assert StripTags("hi</b>") == "hi" by {
      assert "hi</b>"[1..] == "i</b>";
    }
    assert "<b>hi</b>"[1..] == "b>hi</b>";
    assert TagFree("a<b") by {
      assert "a<b"[1..] == "<b";
      assert "<b"[1..] == "b";
      assert "b"[1..] == "";
    }
    TagFreeUnchanged("a<b");
  }
}
