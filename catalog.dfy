/**
 * The product catalog (`allProducts` in script.js): lookup by id as done by
 * `allProducts.find(...)`, and the search box's filter.
 */
module Catalog {
  import opened Wrappers

  /** A product as served by the catalog; `image` may be absent. */
  datatype Product = Product(id: int, name: string, price: real, image: Option<string>)

  /** `s.find(x => idOf(x) === id)`, as the index of the element found. */
  function FindIndex<T>(s: seq<T>, idOf: T -> int, id: int): (r: Option<nat>)
    ensures r.None? <==> forall j :: 0 <= j < |s| ==> idOf(s[j]) != id
    ensures r.Some? ==> r.value < |s| && idOf(s[r.value]) == id
    ensures r.Some? ==> forall j :: 0 <= j < r.value ==> idOf(s[j]) != id
  {
    if s == [] then None
    else if idOf(s[0]) == id then Some(0)
    else match FindIndex(s[1..], idOf, id)
      case None => None
      case Some(k) => Some(k + 1)
  }

  /** `allProducts.find(p => p.id === id)`: the first product with that id. */
  function ProductIndex(ps: seq<Product>, id: int): (r: Option<nat>)
    ensures r.None? <==> forall j :: 0 <= j < |ps| ==> ps[j].id != id
    ensures r.Some? ==> r.value < |ps| && ps[r.value].id == id
    ensures r.Some? ==> forall j :: 0 <= j < r.value ==> ps[j].id != id
  {
    FindIndex(ps, (p: Product) => p.id, id)
  }

  // ---------------------------------------------------------------------
  // Search: `p.name.toLowerCase().includes(text.toLowerCase())`

  /** Lower-casing, restricted to ASCII letters. */
  function LowerChar(c: char): char
  {
    if 'A' <= c <= 'Z' then (c as int + 32) as char else c
  }

  function ToLower(s: string): (r: string)
    ensures |r| == |s|
    ensures forall i :: 0 <= i < |s| ==> r[i] == LowerChar(s[i])
  {
    if s == [] then [] else [LowerChar(s[0])] + ToLower(s[1..])
  }

  /** `needle` occurs in `hay` starting at position `i`. */
  predicate OccursAt(hay: string, needle: string, i: int)
  {
    0 <= i && i + |needle| <= |hay| && hay[i..i + |needle|] == needle
  }

  /** `hay.includes(needle)`, scanning from the left. */
  predicate Includes(hay: string, needle: string)
  {
    (|needle| <= |hay| && hay[..|needle|] == needle) ||
    (hay != [] && Includes(hay[1..], needle))
  }

  predicate Matches(p: Product, text: string)
  {
    Includes(ToLower(p.name), ToLower(text))
  }

  /** `allProducts.filter(...)` with the search text. */
  function Search(ps: seq<Product>, text: string): (r: seq<Product>)
    ensures |r| <= |ps|
    ensures forall p :: p in r <==> p in ps && Matches(p, text)
  {
    if ps == [] then []
    else (if Matches(ps[0], text) then [ps[0]] else []) + Search(ps[1..], text)
  }

  /** `a` is `b` with some elements dropped, order kept. */
  predicate IsSubsequence<T(==)>(a: seq<T>, b: seq<T>)
  {
    if a == [] then true
    else if b == [] then false
    else if a[0] == b[0] then IsSubsequence(a[1..], b[1..])
    else IsSubsequence(a, b[1..])
  }

  // ---------------------------------------------------------------------
  // Lemmas

  /** The scan finds `needle` exactly when it occurs at some position. */
  lemma {:induction false} IncludesIff(hay: string, needle: string)
    ensures Includes(hay, needle) <==> exists i :: OccursAt(hay, needle, i)
  {
    if hay != [] {
      IncludesIff(hay[1..], needle);
      if |needle| <= |hay| && hay[..|needle|] == needle {
        assert OccursAt(hay, needle, 0);
      }
      if exists i :: OccursAt(hay[1..], needle, i) {
        var i :| OccursAt(hay[1..], needle, i);
        assert hay[i + 1..i + 1 + |needle|] == hay[1..][i..i + |needle|];
        assert OccursAt(hay, needle, i + 1);
      }
      if exists i :: OccursAt(hay, needle, i) {
        var i :| OccursAt(hay, needle, i);
        if i > 0 {
          assert hay[1..][i - 1..i - 1 + |needle|] == hay[i..i + |needle|];
          assert OccursAt(hay[1..], needle, i - 1);
        } else {
          assert hay[..|needle|] == needle;
        }
      }
    } else {
      if Includes(hay, needle) {
        assert OccursAt(hay, needle, 0);
      }
      if exists i :: OccursAt(hay, needle, i) {
        var i :| OccursAt(hay, needle, i);
        assert needle == [] && hay[..|needle|] == needle;
      }
    }
  }

  /** Lower-casing twice is lower-casing once, so the query's case never matters. */
  lemma MatchesIgnoresCase(p: Product, text: string)
    ensures Matches(p, text) == Matches(p, ToLower(text))
  {
    assert ToLower(ToLower(text)) == ToLower(text);
  }

  /** The result keeps the catalog's order: it is a subsequence of it. */
  lemma {:induction false} SearchIsSubsequence(ps: seq<Product>, text: string)
    ensures IsSubsequence(Search(ps, text), ps)
  {
    if ps != [] {
      SearchIsSubsequence(ps[1..], text);
      var rest := Search(ps[1..], text);
      if Matches(ps[0], text) {
        assert Search(ps, text) == [ps[0]] + rest;
        assert ([ps[0]] + rest)[1..] == rest;
      } else {
        assert Search(ps, text) == rest;
        SubsequenceOfTail(rest, ps);
      }
    }
  }

  lemma {:induction false} SubsequenceOfTail<T>(a: seq<T>, b: seq<T>)
    requires b != [] && IsSubsequence(a, b[1..])
    ensures IsSubsequence(a, b)
  {
    if a != [] && a[0] == b[0] {
      if b[1..] != [] {
        if a[0] == b[1..][0] {
          SubsequenceDropHead(a, b[1..]);
        } else {
          SubsequenceOfTail(a, b[1..]);
          SubsequenceDropHead(a, b[1..]);
        }
      }
    }
  }

  lemma {:induction false} SubsequenceDropHead<T>(a: seq<T>, b: seq<T>)
    requires a != [] && IsSubsequence(a, b)
    ensures IsSubsequence(a[1..], b)
  {
    if b != [] {
      if a[0] == b[0] {
        if a[1..] != [] {
          SubsequenceOfTail(a[1..], b);
        }
      } else {
        SubsequenceDropHead(a, b[1..]);
        if a[1..] != [] {
          SubsequenceOfTail(a[1..], b);
        }
      }
    }
  }

  /** An empty query shows every product. */
  lemma {:induction false} SearchEmptyText(ps: seq<Product>)
    ensures Search(ps, "") == ps
  {
    if ps != [] {
      assert ToLower(ps[0].name)[..0] == [];
      SearchEmptyText(ps[1..]);
      assert ps == [ps[0]] + ps[1..];
    }
  }

  /** A query that no name contains shows nothing. */
  lemma {:induction false} SearchNoMatch(ps: seq<Product>, text: string)
    requires forall i :: 0 <= i < |ps| ==> !Matches(ps[i], text)
    ensures Search(ps, text) == []
  {
    if ps != [] {
      assert forall i :: 0 <= i < |ps[1..]| ==> ps[1..][i] == ps[i + 1];
      SearchNoMatch(ps[1..], text);
    }
  }
}
