/**
 * `ErrMap`, the index-to-error map a failed `Do` returns, and its rendering:
 * the keys in ascending order, each entry wrapped as "<index>: <message>",
 * the entries joined as Go's `errors.Join` joins them (one per line).
 */
module ErrMaps {
  import opened Wrappers
  import opened Text

  /** An error value, modelled by its message. */
  type Message = string

  /** Go's `ErrMap`: the index of each failed item mapped to that item's error. */
  type ErrMap = map<int, Message>

  predicate StrictlyIncreasing(s: seq<int>) {
    forall i, j :: 0 <= i < j < |s| ==> s[i] < s[j]
  }

  /** Each element occurs once: `maps.Keys` lists every key exactly once. */
  predicate Distinct(s: seq<int>) {
    forall i, j :: 0 <= i < j < |s| ==> s[i] != s[j]
  }

  lemma SomeElement(s: set<int>) returns (y: int)
    requires s != {}
    ensures y in s
  {
    assert (forall z: int :: z !in s) ==> s == {};
    y :| y in s;
  }

  lemma {:induction false} LeastExists(s: set<int>)
    requires s != {}
    ensures exists m :: m in s && forall x :: x in s ==> m <= x
    decreases |s|
  {
    var y := SomeElement(s);
    var rest := s - {y};
    if rest == {} {
      forall x | x in s ensures y <= x {
        assert x !in rest;
      }
    } else {
      LeastExists(rest);
      var m :| m in rest && forall x :: x in rest ==> m <= x;
      var least := if y < m then y else m;
      forall x | x in s ensures least <= x {
        if x != y {
          assert x in rest;
        }
      }
      assert least in s;
    }
  }

  /** The least element of a non-empty set of keys. */
  function Least(s: set<int>): (m: int)
    requires s != {}
    ensures m in s && forall x :: x in s ==> m <= x
  {
    LeastExists(s);
    var m :| m in s && forall x :: x in s ==> m <= x;
    m
  }

  /**
   * The keys of a map as an ascending sequence: what `maps.Keys` followed by
   * `slices.Sort` yields, whatever order `maps.Keys` happens to list them in
   * (see `SortListing`).
   */
  function SortedKeys(keys: set<int>): (r: seq<int>)
    ensures StrictlyIncreasing(r)
    ensures forall k :: k in r <==> k in keys
    ensures |r| == |keys|
    decreases |keys|
  {
    if keys == {} then []
    else
      var m := Least(keys);
      var rest := keys - {m};
      assert |rest| == |keys| - 1;
      var tail := SortedKeys(rest);
      assert forall i :: 0 <= i < |tail| ==> tail[i] in rest;
      [m] + tail
  }

  /** Inserts a new key into an ascending sequence at its place. */
  function Insert(x: int, s: seq<int>): (r: seq<int>)
    requires StrictlyIncreasing(s) && x !in s
    ensures StrictlyIncreasing(r)
    ensures forall y :: y in r <==> y == x || y in s
    ensures |r| == |s| + 1
  {
    if s == [] || x < s[0] then [x] + s
    else
      var tail := Insert(x, s[1..]);
      assert forall y :: y in s <==> y == s[0] || y in s[1..];
      assert forall i :: 0 <= i < |tail| ==> tail[i] in tail;
      [s[0]] + tail
  }

  /** Go's `slices.Sort` applied to a listing of map keys (each key once): ascending order. */
  function Sort(xs: seq<int>): (r: seq<int>)
    requires Distinct(xs)
    ensures StrictlyIncreasing(r)
    ensures forall y :: y in r <==> y in xs
  {
    if xs == [] then []
    else
      var init := xs[..|xs| - 1];
      assert forall y :: y in xs <==> y in init || y == xs[|xs| - 1];
      Insert(xs[|xs| - 1], Sort(init))
  }

  /** The head of an ascending sequence is its least element and occurs nowhere in the tail. */
  lemma AscendingHead(a: seq<int>)
    requires StrictlyIncreasing(a) && a != []
    ensures StrictlyIncreasing(a[1..])
    ensures forall y :: y in a ==> a[0] <= y
    ensures forall y :: y in a[1..] <==> y in a && y != a[0]
  {
  }

  /** Two ascending sequences with the same elements are the same sequence. */
  lemma {:induction false} AscendingUnique(a: seq<int>, b: seq<int>)
    requires StrictlyIncreasing(a) && StrictlyIncreasing(b)
    requires forall y :: y in a <==> y in b
    ensures a == b
    decreases |a|
  {
    if a == [] {
      assert forall i :: 0 <= i < |b| ==> b[i] in b;
    } else {
      assert a[0] in a;
      assert b[0] in b;
      AscendingHead(a);
      AscendingHead(b);
      assert a[0] == b[0];
      AscendingUnique(a[1..], b[1..]);
      assert a == [a[0]] + a[1..] && b == [b[0]] + b[1..];
    }
  }

  /**
   * Sorting determinism: whatever order `maps.Keys` lists the keys in,
   * sorting that listing gives `SortedKeys`.
   */
  lemma SortListing(listing: seq<int>, e: ErrMap)
    requires Distinct(listing)
    requires forall k :: k in listing <==> k in e
    ensures Sort(listing) == SortedKeys(e.Keys)
  {
    AscendingUnique(Sort(listing), SortedKeys(e.Keys));
  }

  /** `fmt.Errorf("%d: %w", k, err)`: the message of the wrapped error. */
  function Wrap(k: int, err: Message): (w: Message)
    ensures '\n' in w <==> '\n' in err
  {
    Decimal(k) + ": " + err
  }

  /** Reads an entry back: the key before the first colon, the message after ": ". */
  function ParseWrapped(s: string): Option<(int, Message)> {
    match IndexOf(s, ':')
    case None => None
    case Some(i) =>
      if i + 1 < |s| && s[i + 1] == ' ' then
        match ParseInt(s[..i])
        case None => None
        case Some(k) => Some((k, s[i + 2..]))
      else None
  }

  /** Wrapping loses nothing, whatever colons the message itself holds. */
  lemma WrapRoundTrip(k: int, err: Message)
    ensures ParseWrapped(Wrap(k, err)) == Some((k, err))
  {
    var d := Decimal(k);
    var w := Wrap(k, err);
    assert w == d + [':'] + (" " + err);
    IndexOfFirst(d, ':', " " + err);
    assert w[..|d|] == d;
    assert w[|d| + 2..] == err;
    DecimalRoundTrip(k);
  }

  /** The wrapped entries for `keys`, in that order (the `errs` slice). */
  function Entries(e: ErrMap, keys: seq<int>): (entries: seq<Message>)
    requires forall i :: 0 <= i < |keys| ==> keys[i] in e
    ensures |entries| == |keys|
  {
    seq(|keys|, i requires 0 <= i < |keys| => Wrap(keys[i], e[keys[i]]))
  }

  /** `ErrMap.ErrJoin`: `None` (Go's nil) for an empty map, else the joined entries. */
  function ErrJoin(e: ErrMap): (r: Option<Message>)
    ensures r.None? <==> |e| == 0
  {
    if |e| == 0 then None
    else Some(JoinLines(Entries(e, SortedKeys(e.Keys))))
  }

  /** `ErrMap.String`: the message of `ErrJoin`; Go panics on an empty map. */
  function String(e: ErrMap): (s: Message)
    requires |e| > 0
    ensures ErrJoin(e) == Some(s)
  {
    ErrJoin(e).value
  }

  /** `ErrMap.Error`: the same message as `String`. */
  function Error(e: ErrMap): (s: Message)
    requires |e| > 0
    ensures s == String(e) && ErrJoin(e) == Some(s)
  {
    String(e)
  }

  /** Parses each line as a wrapped entry; `None` if one of them is not. */
  function ParseLines(lines: seq<string>): (r: Option<seq<(int, Message)>>)
    ensures r.Some? ==> |r.value| == |lines|
  {
    if lines == [] then Some([])
    else match ParseWrapped(lines[0])
      case None => None
      case Some(p) =>
        match ParseLines(lines[1..])
        case None => None
        case Some(ps) => Some([p] + ps)
  }

  /** The map whose entries are the pairs (an earlier pair wins a repeated key). */
  function ToMap(pairs: seq<(int, Message)>): map<int, Message> {
    if pairs == [] then map[]
    else ToMap(pairs[1..])[pairs[0].0 := pairs[0].1]
  }

  /** Reads a rendered error map back into the map. */
  function ParseErrMap(s: string): Option<ErrMap> {
    match ParseLines(SplitLines(s))
    case None => None
    case Some(pairs) => Some(ToMap(pairs))
  }

  /** The (key, message) pairs of `e` for `keys`, in that order. */
  function Pairs(e: ErrMap, keys: seq<int>): (ps: seq<(int, Message)>)
    requires forall i :: 0 <= i < |keys| ==> keys[i] in e
  {
    if keys == [] then [] else [(keys[0], e[keys[0]])] + Pairs(e, keys[1..])
  }

  lemma {:induction false} ParseEntries(e: ErrMap, keys: seq<int>)
    requires forall i :: 0 <= i < |keys| ==> keys[i] in e
    ensures ParseLines(Entries(e, keys)) == Some(Pairs(e, keys))
    decreases |keys|
  {
    if keys != [] {
      var entries := Entries(e, keys);
      WrapRoundTrip(keys[0], e[keys[0]]);
      assert entries[1..] == Entries(e, keys[1..]);
      ParseEntries(e, keys[1..]);
    }
  }

  lemma {:induction false} ToMapPairs(e: ErrMap, keys: seq<int>)
    requires forall i :: 0 <= i < |keys| ==> keys[i] in e
    ensures ToMap(Pairs(e, keys)) == map k | k in keys :: e[k]
    decreases |keys|
  {
    if keys != [] {
      ToMapPairs(e, keys[1..]);
      assert forall k :: k in keys <==> k == keys[0] || k in keys[1..] by {
        assert keys == [keys[0]] + keys[1..];
      }
    }
  }

  /** With newline-free messages, the lines of the rendering are the wrapped entries in key order. */
  lemma StringLines(e: ErrMap)
    requires |e| > 0
    requires forall k :: k in e ==> '\n' !in e[k]
    ensures SplitLines(String(e)) == Entries(e, SortedKeys(e.Keys))
  {
    var keys := SortedKeys(e.Keys);
    var entries := Entries(e, keys);
    SplitJoin(entries);
  }

  /**
   * The layout of the rendered message: when no message holds a newline, it
   * has one line per key, and line `i` reads back as the `i`-th key in
   * ascending order (`SortedKeys`) together with that key's message.
   */
  lemma StringLayout(e: ErrMap)
    requires |e| > 0
    requires forall k :: k in e ==> '\n' !in e[k]
    ensures |SplitLines(String(e))| == |e|
    ensures forall i :: 0 <= i < |e| ==>
      ParseWrapped(SplitLines(String(e))[i]) == Some((SortedKeys(e.Keys)[i], e[SortedKeys(e.Keys)[i]]))
  {
    var keys := SortedKeys(e.Keys);
    StringLines(e);
    forall i | 0 <= i < |keys|
      ensures ParseWrapped(Entries(e, keys)[i]) == Some((keys[i], e[keys[i]]))
    {
      WrapRoundTrip(keys[i], e[keys[i]]);
    }
  }

  /** Rendering loses nothing when no message holds a newline: it parses back to the map. */
  lemma StringRoundTrip(e: ErrMap)
    requires |e| > 0
    requires forall k :: k in e ==> '\n' !in e[k]
    ensures ParseErrMap(String(e)) == Some(e)
  {
    var keys := SortedKeys(e.Keys);
    var lines := SplitLines(String(e));
    StringLines(e);
    ParseEntries(e, keys);
    assert ParseLines(lines) == Some(Pairs(e, keys));
    assert ParseErrMap(String(e)) == Some(ToMap(Pairs(e, keys)));
    ToMapPairs(e, keys);
    RestrictToAllKeys(e, keys);
  }

  lemma RestrictToAllKeys(e: ErrMap, keys: seq<int>)
    requires forall k :: k in keys <==> k in e
    ensures (map k | k in keys :: e[k]) == e
  {
    var m := map k | k in keys :: e[k];
    forall k ensures k in m <==> k in e {
      assert k in m <==> k in keys;
    }
    assert m.Keys == e.Keys;
  }
}
