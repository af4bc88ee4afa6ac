/** The page as both loaders see it, the log of started fragment loads, and the
    pieces the two loaders share: the `indexOf` lookup and the normalisation of
    the CSS marker string. */
module PageModel {

  datatype Option<T> = None | Some(value: T)

  /** A page element, reduced to its `data-*` attributes. A key is the attribute
      name without its `data-` prefix (`device-tablet` for `data-device-tablet`),
      the value is the fragment URL the attribute holds. */
  datatype Element = Element(data: map<string, string>)

  /** One `$(el).load(url)` call: the index of the element in document order
      and the URL whose response will be inserted into it. */
  datatype Load = Load(element: nat, url: string)

  /** Whether element `e` of `page` carries the attribute `data-<key>`. */
  predicate Carries(page: seq<Element>, key: string, e: int)
  {
    0 <= e < |page| && key in page[e].data
  }

  /** The loads one `$('[data-<key>]').each(...)` starts when it has visited
      the first `k` elements of the page. */
  function BoundUpTo(page: seq<Element>, key: string, k: nat): (r: seq<Load>)
    requires k <= |page|
  {
    if k == 0 then []
    else BoundUpTo(page, key, k - 1)
         + (if key in page[k - 1].data then [Load(k - 1, page[k - 1].data[key])] else [])
  }

  /** The loads `$('[data-<key>]').each(function(){ $(this).load($(this).data(key)) })`
      starts on `page`. */
  function Bound(page: seq<Element>, key: string): (r: seq<Load>)
  {
    BoundUpTo(page, key, |page|)
  }

  /** Load `l` is for one of the first `k` elements, which carries the
      attribute, and has that attribute's value as URL. */
  predicate LoadFor(page: seq<Element>, key: string, l: Load, k: int)
  {
    l.element < k && Carries(page, key, l.element) && l.url == page[l.element].data[key]
  }

  /** Every load of one `.each` over the first `k` elements is for one of those
      elements that carries the attribute, with that attribute's value as URL. */
  lemma {:induction false} BoundUpToSound(page: seq<Element>, key: string, k: nat)
    requires k <= |page|
    ensures forall m :: 0 <= m < |BoundUpTo(page, key, k)| ==> LoadFor(page, key, BoundUpTo(page, key, k)[m], k)
  {
    if k > 0 {
      BoundUpToSound(page, key, k - 1);
      var r0 := BoundUpTo(page, key, k - 1);
      var r := BoundUpTo(page, key, k);
      assert r == r0 + (if key in page[k - 1].data then [Load(k - 1, page[k - 1].data[key])] else []);
      forall m | 0 <= m < |r|
        ensures LoadFor(page, key, r[m], k)
      {
        if m < |r0| {
          assert r[m] == r0[m] && LoadFor(page, key, r0[m], k - 1);
        }
      }
    }
  }

  /** The loads follow document order, one per element at most. */
  lemma {:induction false} BoundUpToOrdered(page: seq<Element>, key: string, k: nat)
    requires k <= |page|
    ensures forall m, m' :: 0 <= m < m' < |BoundUpTo(page, key, k)| ==>
      BoundUpTo(page, key, k)[m].element < BoundUpTo(page, key, k)[m'].element
  {
    if k > 0 {
      BoundUpToSound(page, key, k - 1);
      BoundUpToOrdered(page, key, k - 1);
      var r0 := BoundUpTo(page, key, k - 1);
      var r := BoundUpTo(page, key, k);
      assert r == r0 + (if key in page[k - 1].data then [Load(k - 1, page[k - 1].data[key])] else []);
      forall m, m' | 0 <= m < m' < |r|
        ensures r[m].element < r[m'].element
      {
        assert r[m] == r0[m] && LoadFor(page, key, r0[m], k - 1);
        if m' < |r0| {
          assert r[m'] == r0[m'];
        }
      }
    }
  }

  /** Whether some load in `r` is for element `e`. */
  predicate Visits(r: seq<Load>, e: int)
  {
    exists m :: 0 <= m < |r| && r[m].element == e
  }

  /** Every one of the first `k` elements that carries the attribute gets a
      load. */
  lemma {:induction false} BoundUpToComplete(page: seq<Element>, key: string, k: nat)
    requires k <= |page|
    ensures forall e :: 0 <= e < k && Carries(page, key, e) ==> Visits(BoundUpTo(page, key, k), e)
  {
    if k > 0 {
      BoundUpToComplete(page, key, k - 1);
      var r0 := BoundUpTo(page, key, k - 1);
      var r := BoundUpTo(page, key, k);
      assert r == r0 + (if key in page[k - 1].data then [Load(k - 1, page[k - 1].data[key])] else []);
      forall e | 0 <= e < k && Carries(page, key, e)
        ensures Visits(r, e)
      {
        if e < k - 1 {
          assert Visits(r0, e);
          var m :| 0 <= m < |r0| && r0[m].element == e;
          assert r[m] == r0[m];
        } else {
          assert r[|r0|].element == e;
        }
      }
    }
  }

  /** Every load of one `.each` is for an element carrying the attribute, with
      its value as URL; every such element gets exactly one load; loads follow
      document order. */
  lemma BoundCharacterised(page: seq<Element>, key: string)
    ensures var r := Bound(page, key);
      && (forall m :: 0 <= m < |r| ==>
            Carries(page, key, r[m].element) && r[m].url == page[r[m].element].data[key])
      && (forall m, m' :: 0 <= m < m' < |r| ==> r[m].element < r[m'].element)
      && (forall e :: Carries(page, key, e) ==> exists m :: 0 <= m < |r| && r[m].element == e)
  {
    assert Bound(page, key) == BoundUpTo(page, key, |page|);
    BoundUpToSound(page, key, |page|);
    BoundUpToOrdered(page, key, |page|);
    BoundUpToComplete(page, key, |page|);
  }

  /** A `.each` starts at least one load exactly when some element carries the
      attribute; this is what decides whether a `loaded` flag is set. */
  lemma BoundNonEmpty(page: seq<Element>, key: string)
    ensures |Bound(page, key)| > 0 <==> exists e :: Carries(page, key, e)
  {
    BoundCharacterised(page, key);
    var r := Bound(page, key);
    if |r| > 0 {
      assert Carries(page, key, r[0].element);
    }
  }

  /** Appending to a log is associative. */
  lemma AppendAssociative(a: seq<Load>, b: seq<Load>, c: seq<Load>)
    ensures (a + b) + c == a + (b + c)
  {
  }

  /** `Array.prototype.indexOf` with strict equality: the first index holding
      `x`, or -1 when there is none. */
  function IndexOf<T(==)>(xs: seq<T>, x: T): (r: int)
    ensures -1 <= r < |xs|
    ensures r == -1 <==> x !in xs
    ensures 0 <= r ==> xs[r] == x && x !in xs[..r]
  {
    if xs == [] then -1
    else if xs[0] == x then 0
    else
      var i := IndexOf(xs[1..], x);
      assert xs[1..][..if i < 0 then 0 else i] == xs[1..1 + if i < 0 then 0 else i];
      if i < 0 then -1 else i + 1
  }

  /** `s.replace('"', '', 'g')`: with a string pattern, standard JavaScript
      ignores the third argument and replaces only the first occurrence. */
  function StripFirstQuote(s: string): (t: string)
    ensures |t| == if '"' in s then |s| - 1 else |s|
    ensures '"' !in s ==> t == s
  {
    var k := IndexOf(s, '"');
    if k < 0 then s else s[..k] + s[k + 1..]
  }

  /** The two successive `replace` calls both loaders apply to the marker. */
  function Normalise(s: string): (t: string)
    ensures |s| - 2 <= |t| <= |s|
    ensures '"' !in s ==> t == s
  {
    StripFirstQuote(StripFirstQuote(s))
  }

  /** One `replace` removes one quote character when there is one, and no
      other character. */
  lemma StripFirstQuoteRemovesOne(s: string)
    ensures multiset(StripFirstQuote(s)) == multiset(s) - multiset{'"'}
    ensures |StripFirstQuote(s)| == if '"' in s then |s| - 1 else |s|
  {
    var k := IndexOf(s, '"');
    if k >= 0 {
      assert s == s[..k] + [s[k]] + s[k + 1..];
    }
  }

  /** Normalisation removes quote characters only, and at most two of them. */
  lemma NormaliseRemovesAtMostTwoQuotes(s: string)
    ensures multiset(Normalise(s)) == multiset(s) - multiset{'"', '"'}
    ensures |s| - 2 <= |Normalise(s)| <= |s|
  {
    var once := StripFirstQuote(s);
    var twice := StripFirstQuote(once);
    assert Normalise(s) == twice;
    StripFirstQuoteRemovesOne(s);
    StripFirstQuoteRemovesOne(once);
    calc {
      multiset(twice);
      multiset(once) - multiset{'"'};
      multiset(s) - multiset{'"'} - multiset{'"'};
      { MultisetMinusTwice(multiset(s), '"'); }
      multiset(s) - multiset{'"', '"'};
    }
  }

  /** Removing one copy twice is removing two copies. */
  lemma MultisetMinusTwice<T>(m: multiset<T>, x: T)
    ensures m - multiset{x} - multiset{x} == m - multiset{x, x}
  {
    forall y ensures (m - multiset{x} - multiset{x})[y] == (m - multiset{x, x})[y] {
    }
  }

  /** A marker without quotes is left as it is. */
  lemma NormaliseUnquoted(w: string)
    requires '"' !in w
    ensures Normalise(w) == w
  {
  }

  /** A word of lower-case letters and hyphens holds no quote. */
  lemma Unquoted(w: string)
    requires forall j :: 0 <= j < |w| ==> 'a' <= w[j] <= 'z' || w[j] == '-'
    ensures '"' !in w
  {
  }

  /** A marker reported with one layer of double quotes, as most browsers
      report generated `content`, normalises to the bare word. */
  lemma NormaliseQuoted(w: string)
    requires '"' !in w
    ensures Normalise("\"" + w + "\"") == w
  {
    var q := "\"" + w + "\"";
    assert IndexOf(q, '"') == 0;
    assert StripFirstQuote(q) == w + "\"";
    assert (w + "\"")[|w|] == '"' && (w + "\"")[..|w|] == w;
    assert IndexOf(w + "\"", '"') == |w|;
  }

  /** Two layers of quotes are not fully removed: only the first two of the
      four quote characters go. */
  lemma NormaliseDoublyQuoted(w: string)
    ensures Normalise("\"\"" + w + "\"\"") == w + "\"\""
    ensures Normalise("\"\"" + w + "\"\"") != w
  {
    var q := "\"\"" + w + "\"\"";
    assert Normalise(q) == w + "\"\"" by {
      NormaliseTwoLeading(q);
      assert q[2..] == w + "\"\"";
    }
    assert |Normalise(q)| == |w| + 2;
  }

  /** On a string that starts with two quotes, normalisation drops those two. */
  lemma NormaliseTwoLeading(s: string)
    requires |s| >= 2 && s[0] == '"' && s[1] == '"'
    ensures Normalise(s) == s[2..]
  {
    StripLeadingQuote(s);
    StripLeadingQuote(s[1..]);
    assert s[1..][1..] == s[2..];
  }

  /** On a string that starts with a quote, `replace` drops that quote. */
  lemma StripLeadingQuote(s: string)
    requires |s| > 0 && s[0] == '"'
    ensures StripFirstQuote(s) == s[1..]
  {
    assert IndexOf(s, '"') == 0;
  }
}
