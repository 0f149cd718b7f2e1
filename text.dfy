/** String operations that the services rely on from the JavaScript runtime:
    searching for a character, cutting off known text, `Array.prototype.join`
    with a separator and its inverse `String.prototype.split`.  Strings are
    sequences of characters; the templates of the prompts are built and read
    back with these. */
module Text {
  import opened Wrappers

  /** The index of the first occurrence of `c` in `s`, if there is one. */
  function FirstIndexOf(s: string, c: char): (r: Option<nat>)
    ensures r.None? <==> c !in s
    ensures r.Some? ==> r.value < |s| && s[r.value] == c && c !in s[..r.value]
  {
    if |s| == 0 then None
    else if s[0] == c then Some(0)
    else
      match FirstIndexOf(s[1..], c)
      case None => None
      case Some(i) =>
        assert s[..i + 1] == [s[0]] + s[1..][..i];
        Some(i + 1)
  }

  /** Cuts `s` at the first `c`: the text before it and the text after it. */
  function SplitAtFirst(s: string, c: char): (r: Option<(string, string)>)
    ensures r.None? <==> c !in s
    ensures r.Some? ==> s == r.value.0 + [c] + r.value.1 && c !in r.value.0
  {
    match FirstIndexOf(s, c)
    case None => None
    case Some(i) =>
      assert s == s[..i] + [c] + s[i + 1..];
      Some((s[..i], s[i + 1..]))
  }

  /** Cutting at the first `c` recovers the two parts around a `c` when the
      first part holds none. */
  lemma SplitAtFirstOf(x: string, c: char, y: string)
    requires c !in x
    ensures SplitAtFirst(x + [c] + y, c) == Some((x, y))
  {
    var s := x + [c] + y;
    assert s[|x|] == c;
    assert s[..|x|] == x;
    assert s[|x| + 1..] == y;
  }

  /** The rest of `s` after the text `p`, when `s` starts with `p`. */
  function StripPrefix(s: string, p: string): (r: Option<string>)
    ensures r.Some? <==> p <= s
    ensures r.Some? ==> s == p + r.value
  {
    if p <= s then
      assert s == p + s[|p|..];
      Some(s[|p|..])
    else None
  }

  lemma StripPrefixOf(p: string, y: string)
    ensures StripPrefix(p + y, p) == Some(y)
  {
  }

  /** What precedes the text `q` in `s`, when `s` ends with `q`. */
  function StripSuffix(s: string, q: string): (r: Option<string>)
    ensures r.Some? <==> |q| <= |s| && s[|s| - |q|..] == q
    ensures r.Some? ==> s == r.value + q
  {
    if |q| <= |s| && s[|s| - |q|..] == q then
      assert s == s[..|s| - |q|] + q;
      Some(s[..|s| - |q|])
    else None
  }

  lemma StripSuffixOf(y: string, q: string)
    ensures StripSuffix(y + q, q) == Some(y)
  {
  }

  /** A slot of a template: fixed text, the slot's value, and the character
      that closes the slot. */
  function Field(lead: string, value: string, close: char): string {
    lead + value + [close]
  }

  /** Reads one slot: the fixed text must come first, and the value runs up
      to the first closing character.  Gives the value and what follows. */
  function ReadField(s: string, lead: string, close: char): (r: Option<(string, string)>)
    ensures r.Some? ==> s == Field(lead, r.value.0, close) + r.value.1 && close !in r.value.0
  {
    var rest :- StripPrefix(s, lead);
    var cut :- SplitAtFirst(rest, close);
    Some(cut)
  }

  lemma ReadFieldOf(lead: string, value: string, close: char, rest: string)
    requires close !in value
    ensures ReadField(Field(lead, value, close) + rest, lead, close) == Some((value, rest))
  {
    assert Field(lead, value, close) + rest == lead + (value + [close] + rest);
    StripPrefixOf(lead, value + [close] + rest);
    SplitAtFirstOf(value, close, rest);
  }

  /** The separator of `keywords.join(', ')`. */
  const Separator: string := ", "

  /** No occurrence of the separator inside `k`. */
  predicate SeparatorFree(k: string) {
    forall j | 0 <= j < |k| - 1 :: !(k[j] == Separator[0] && k[j + 1] == Separator[1])
  }

  /** `Array.prototype.join` with the separator ", ": the elements in order,
      with the separator between neighbours only.  Splitting undoes it when
      there is at least one element and no element holds the separator
      (a `,` alone is harmless: no separator can straddle an element's
      boundary, since the separator starts with `,` and ends with a space). */
  function Join(items: seq<string>): (r: string)
    ensures |items| >= 1 && (forall k | 0 <= k < |items| :: SeparatorFree(items[k])) ==> Split(r) == items
  {
    if |items| == 0 then ""
    else if |items| == 1 then
      SplitWhole(items[0]);
      items[0]
    else
      var rest := Join(items[1..]);
      SplitLeading(items[0], rest);
      assert items == [items[0]] + items[1..];
      items[0] + Separator + rest
  }

  /** `String.prototype.split` with the separator ", ": the pieces between
      the occurrences of the separator, found from left to right.  A string
      without a separator is one piece, so the empty string gives [""]. */
  function Split(s: string): (r: seq<string>)
    ensures |r| >= 1
    decreases |s|
  {
    if |s| < 2 then [s]
    else if s[..2] == Separator then [""] + Split(s[2..])
    else
      var tail := Split(s[1..]);
      [[s[0]] + tail[0]] + tail[1..]
  }

  /** Joining one more element adds the separator and the element at the end. */
  lemma {:induction false} JoinAppend(items: seq<string>, last: string)
    requires |items| >= 1
    ensures Join(items + [last]) == Join(items) + Separator + last
    decreases |items|
  {
    if |items| == 1 {
      assert items + [last] == [items[0], last];
    } else {
      assert (items + [last])[1..] == items[1..] + [last];
      JoinAppend(items[1..], last);
    }
  }

  /** Joining undoes splitting, for every string. */
  lemma {:induction false} JoinSplit(s: string)
    ensures Join(Split(s)) == s
    decreases |s|
  {
    if |s| < 2 {
    } else if s[..2] == Separator {
      JoinSplit(s[2..]);
      var tail := Split(s[2..]);
      assert ([""] + tail)[1..] == tail;
      assert s == s[..2] + s[2..];
    } else {
      JoinSplit(s[1..]);
      var tail := Split(s[1..]);
      JoinConsFirst(s[0], tail);
      assert s == [s[0]] + s[1..];
    }
  }

  // One unfolding of `Join` suffices; automatic induction only slows it down.
  lemma {:induction false} JoinConsFirst(c: char, items: seq<string>)
    requires |items| >= 1
    ensures Join([[c] + items[0]] + items[1..]) == [c] + Join(items)
  {
  }

  lemma SeparatorFreeTail(k: string)
    requires |k| >= 1 && SeparatorFree(k)
    ensures SeparatorFree(k[1..])
  {
  }

  lemma {:induction false} SplitWhole(k: string)
    ensures SeparatorFree(k) ==> Split(k) == [k]
    decreases |k|
  {
    if SeparatorFree(k) && |k| >= 2 {
      assert k[..2] != Separator by { assert k[..2][0] == k[0] && k[..2][1] == k[1]; }
      SeparatorFreeTail(k);
      SplitWhole(k[1..]);
      assert [k[0]] + k[1..] == k;
    }
  }

  lemma {:induction false} SplitLeading(k: string, rest: string)
    ensures SeparatorFree(k) ==> Split(k + Separator + rest) == [k] + Split(rest)
    decreases |k|
  {
    var s := k + Separator + rest;
    if !SeparatorFree(k) {
    } else if |k| == 0 {
      assert s[..2] == Separator;
      assert s[2..] == rest;
    } else {
      assert s[..2] != Separator by {
        if |k| == 1 {
          assert s[..2][1] == ',';
        } else {
          assert s[..2][0] == k[0] && s[..2][1] == k[1];
        }
      }
      assert s[1..] == k[1..] + Separator + rest;
      SeparatorFreeTail(k);
      SplitLeading(k[1..], rest);
      assert [k[0]] + k[1..] == k;
    }
  }
}
