/** Redirection of plain-HTTP requests to HTTPS: a request that did not
    arrive over TLS is answered with a permanent redirect to its absolute URL
    in which every `http://` has been replaced by `https://`; a secure request
    goes on unchanged. */
module HTTPSRedirect {
  import opened Http

  const Insecure: string := "http://"
  const Secure: string := "https://"

  /** Python's `s.replace(pat, rep)`: every leftmost, non-overlapping
      occurrence of `pat` replaced. */
  function Replace(s: string, pat: string, rep: string): (r: string)
    requires pat != []
    ensures |pat| <= |rep| ==> |s| <= |r|
    ensures |pat| == |rep| ==> |r| == |s|
    decreases |s|
  {
    if s == [] then []
    else if pat <= s then rep + Replace(s[|pat|..], pat, rep)
    else [s[0]] + Replace(s[1..], pat, rep)
  }

  /** The rewrite applied to the absolute URL. */
  function SecureUrl(url: string): (r: string)
    ensures |url| <= |r|
    ensures Insecure <= url ==> Secure <= r
  {
    Replace(url, Insecure, Secure)
  }

  /** The filter; `absoluteUri` is what `build_absolute_uri(get_full_path())`
      gives for the request, query string included. */
  function Decide(request: Request, absoluteUri: string): (step: Step)
    ensures request.secure ==> step == Forward(request)
    ensures !request.secure ==> step.Reply? && step.response.status == 301
    ensures !request.secure ==> "Location" in step.response.headers && step.response.headers["Location"] == SecureUrl(absoluteUri)
  {
    if !request.secure then Reply(Redirect(SecureUrl(absoluteUri), true))
    else Forward(request)
  }

  /** The rewrite is the identity on a URL with no `http://` in it. */
  lemma {:induction false} ReplaceWithoutOccurrence(s: string, pat: string, rep: string)
    requires pat != []
    requires !Contains(s, pat)
    ensures Replace(s, pat, rep) == s
    decreases |s|
  {
    if s != [] {
      ReplaceWithoutOccurrence(s[1..], pat, rep);
    }
  }

  lemma SecureUrlOfSecureUrl(url: string)
    requires !Contains(url, Insecure)
    ensures SecureUrl(url) == url
  {
    ReplaceWithoutOccurrence(url, Insecure, Secure);
  }

  /** One step of the rewrite at the front of a non-empty URL. */
  lemma SecureUrlStep(t: string)
    requires t != []
    ensures Insecure <= t ==> SecureUrl(t) == Secure + SecureUrl(t[|Insecure|..])
    ensures !(Insecure <= t) ==> SecureUrl(t) == [t[0]] + SecureUrl(t[1..])
  {
  }

  /** A prefix of the rewritten URL that holds no `h` was already a prefix of
      the original: the rewrite only ever emits text starting with `h` where
      it changed something. */
  lemma {:induction false} PrefixWithoutH(t: string, w: string)
    requires 'h' !in w
    requires w <= SecureUrl(t)
    ensures w <= t
    decreases |t|
  {
    if t != [] && w != [] {
      SecureUrlStep(t);
      assert w[0] == SecureUrl(t)[0];
      if Insecure <= t {
        assert false;
      } else {
        assert w[1..] <= SecureUrl(t[1..]);
        PrefixWithoutH(t[1..], w[1..]);
      }
    }
  }

  /** The rewritten URL never starts with `http://`. */
  lemma SecureUrlNotInsecurePrefix(s: string)
    ensures !(Insecure <= SecureUrl(s))
  {
    if s != [] && !(Insecure <= s) {
      assert SecureUrl(s) == [s[0]] + SecureUrl(s[1..]);
      if Insecure <= SecureUrl(s) {
        assert SecureUrl(s[1..])[..6] == SecureUrl(s)[1..7] == Insecure[1..];
        assert "ttp://" <= SecureUrl(s[1..]);
        PrefixWithoutH(s[1..], "ttp://");
        assert false;
      }
    } else if s != [] {
      assert SecureUrl(s) == Secure + SecureUrl(s[|Insecure|..]);
      assert SecureUrl(s)[4] == 's';
    }
  }

  /** Text without an `h` in front of `x` adds no occurrence of `http://`. */
  lemma {:induction false} NoHPrefixAddsNothing(w: string, x: string)
    requires 'h' !in w
    ensures Contains(w + x, Insecure) == Contains(x, Insecure)
    decreases |w|
  {
    if w != [] {
      assert (w + x)[1..] == w[1..] + x;
      assert !(Insecure <= w + x) by {
        assert (w + x)[0] == w[0];
      }
      assert Contains(w + x, Insecure) == Contains(w[1..] + x, Insecure);
      NoHPrefixAddsNothing(w[1..], x);
    } else {
      assert w + x == x;
    }
  }

  /** No `http://` is left anywhere in the rewritten URL. */
  lemma {:induction false} NoInsecureLeft(s: string)
    ensures !Contains(SecureUrl(s), Insecure)
    decreases |s|
  {
    if s != [] {
      SecureUrlNotInsecurePrefix(s);
      if Insecure <= s {
        var rest := SecureUrl(s[|Insecure|..]);
        NoInsecureLeft(s[|Insecure|..]);
        assert SecureUrl(s) == Secure + rest;
        assert (Secure + rest)[1..] == "ttps://" + rest;
        NoHPrefixAddsNothing("ttps://", rest);
      } else {
        NoInsecureLeft(s[1..]);
        assert SecureUrl(s)[1..] == SecureUrl(s[1..]);
      }
    }
  }

  /** Redirecting an insecure request leaves the target free of `http://`,
      query string included; a URL that had none is kept as it is. */
  lemma RedirectTarget(request: Request, absoluteUri: string)
    requires !request.secure
    ensures !Contains(Decide(request, absoluteUri).response.headers["Location"], Insecure)
    ensures !Contains(absoluteUri, Insecure) ==> Decide(request, absoluteUri).response.headers["Location"] == absoluteUri
  {
    NoInsecureLeft(absoluteUri);
    if !Contains(absoluteUri, Insecure) {
      SecureUrlOfSecureUrl(absoluteUri);
    }
  }

  /** An example with a second `http://` inside the query string. */
  lemma RewritesQueryToo()
    ensures SecureUrl("http://a/?u=http://b") == "https://a/?u=https://b"
  {
    var tail := "http://b";
    SecureUrlStep(tail);
    assert tail[|Insecure|..] == "b";
    SecureUrlStep("b");
    assert SecureUrl(tail) == "https://b";
    var mid := "a/?u=";
    ReplacePrefixWithoutOccurrence(mid, tail);
    var s := "http://a/?u=http://b";
    SecureUrlStep(s);
    assert s[|Insecure|..] == mid + tail;
    assert SecureUrl(mid + tail) == mid + "https://b";
    assert SecureUrl(s) == Secure + mid + "https://b";
  }

  /** Text with no `h` in front of the rest is copied unchanged. */
  lemma {:induction false} ReplacePrefixWithoutOccurrence(w: string, x: string)
    requires 'h' !in w
    ensures SecureUrl(w + x) == w + SecureUrl(x)
    decreases |w|
  {
    if w != [] {
      SecureUrlStep(w + x);
      assert (w + x)[0] == w[0];
      assert (w + x)[1..] == w[1..] + x;
      ReplacePrefixWithoutOccurrence(w[1..], x);
    } else {
      assert w + x == x;
    }
  }
}
