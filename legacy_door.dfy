/**
 * The first, socket-based door firmware: `get_parameters_from` reads the
 * request text from the `Content-Length:` header on, splits it on '&' and
 * each piece on '=', and stores every piece's first two fields as a key and
 * a value. Every accepted connection gets the same fixed HTTP reply before
 * the shared secret is looked at.
 */
module LegacyDoor {
  import opened Wrappers

  /** The fixed reply written to every connection. */
  const RESPONSE: string := "HTTP/1.1 200 OK\r\nContent-Length: 0\r\nConnection: close\r\n\r\n"

  /** The header text at which parameter parsing starts. */
  const MARKER: string := "Content-Length:"

  // ---------------------------------------------------------------------
  // Python's str.find, slicing and str.split
  // ---------------------------------------------------------------------

  predicate OccursAt(s: string, pat: string, j: int) {
    0 <= j && j + |pat| <= |s| && s[j..j + |pat|] == pat
  }

  /** `s.find(pat, k)`: the first occurrence at or after `k`, or -1. */
  function FindFrom(s: string, pat: string, k: nat): (i: int)
    ensures i == -1 || (k <= i && OccursAt(s, pat, i))
    ensures forall j :: k <= j < (if i == -1 then |s| + 1 else i) ==> !OccursAt(s, pat, j)
    decreases |s| + 1 - k
  {
    if k + |pat| > |s| then -1
    else if s[k..k + |pat|] == pat then k
    else FindFrom(s, pat, k + 1)
  }

  /** `s.find(pat)`: the first occurrence, or -1 when there is none. */
  function Find(s: string, pat: string): (i: int)
    ensures i == -1 <==> forall j :: 0 <= j <= |s| ==> !OccursAt(s, pat, j)
    ensures i != -1 ==> OccursAt(s, pat, i) && forall j :: 0 <= j < i ==> !OccursAt(s, pat, j)
  {
    FindFrom(s, pat, 0)
  }

  /** `s[i:]` for an index that may be negative (counted from the end). */
  function SliceFrom(s: string, i: int): (t: string)
    ensures 0 <= i <= |s| ==> t == s[i..]
    ensures -|s| <= i < 0 ==> t == s[|s| + i..]
    ensures i < -|s| ==> t == s
    ensures i > |s| ==> t == []
  {
    if i < -|s| then s
    else if i < 0 then s[|s| + i..]
    else if i <= |s| then s[i..]
    else []
  }

  /** The index of the first `c` in `s`, or -1. */
  function IndexOf(s: string, c: char): (i: int)
    ensures -1 <= i < |s|
    ensures i >= 0 ==> s[i] == c && c !in s[..i]
    ensures i == -1 <==> c !in s
  {
    if |s| == 0 then -1
    else if s[0] == c then 0
    else
      var j := IndexOf(s[1..], c);
      assert s[1..][..if j < 0 then 0 else j] == s[1..if j < 0 then 1 else j + 1];
      if j < 0 then -1
      else
        assert s[..j + 1] == [s[0]] + s[1..][..j];
        j + 1
  }

  /** `s.split(c)`: the maximal runs between the occurrences of `c`. */
  function Split(s: string, c: char): (parts: seq<string>)
    ensures |parts| >= 1
    ensures |parts| >= 2 <==> c in s
    ensures forall k :: 0 <= k < |parts| ==> c !in parts[k]
    decreases |s|
  {
    var i := IndexOf(s, c);
    if i < 0 then [s] else [s[..i]] + Split(s[i + 1..], c)
  }

  /** `c.join(parts)`. */
  function Join(parts: seq<string>, c: char): string
    requires |parts| >= 1
  {
    if |parts| == 1 then parts[0] else parts[0] + [c] + Join(parts[1..], c)
  }

  /** Splitting loses nothing: joining the pieces again gives back the text. */
  lemma {:induction false} JoinSplit(s: string, c: char)
    ensures Join(Split(s, c), c) == s
    decreases |s|
  {
    var i := IndexOf(s, c);
    if i >= 0 {
      JoinSplit(s[i + 1..], c);
      assert s == s[..i] + [c] + s[i + 1..];
    }
  }

  /** The first piece of a split starts with any prefix that holds no separator. */
  lemma SplitKeepsPrefix(p: string, rest: string, c: char)
    requires c !in p
    ensures |Split(p + rest, c)[0]| >= |p| && Split(p + rest, c)[0][..|p|] == p
  {
    var s := p + rest;
    var i := IndexOf(s, c);
    assert s[..|p|] == p;
    if i >= 0 {
      assert i >= |p|;
      assert s[..i][..|p|] == s[..|p|];
    }
  }

  // ---------------------------------------------------------------------
  // get_parameters_from
  // ---------------------------------------------------------------------

  /** The '&'-separated pieces that `get_parameters_from` walks over. */
  function Pieces(request: string): (pieces: seq<string>)
    ensures |pieces| >= 1
  {
    Split(SliceFrom(request, Find(request, MARKER)), '&')
  }

  /** A piece with an '=' has a value; one without raises IndexError. */
  predicate HasValue(piece: string) {
    '=' in piece
  }

  /** `piece.split("=")[0]`: the text before the first '='. */
  function Key(piece: string): string {
    Split(piece, '=')[0]
  }

  /** `piece.split("=")[1]`: the text between the first and second '='. */
  function Value(piece: string): string
    requires HasValue(piece)
  {
    Split(piece, '=')[1]
  }

  /** The first two pieces of `s.split(c)`, in terms of the first occurrence of `c`. */
  lemma SplitHead(s: string, c: char)
    ensures var i := IndexOf(s, c);
      Split(s, c)[0] == (if i < 0 then s else s[..i]) &&
      (i >= 0 ==> Split(s, c)[1] == Split(s[i + 1..], c)[0])
  {
  }

  /** The key runs up to the first '=', or is the whole piece when there is none. */
  lemma KeyShape(piece: string)
    ensures var k := Key(piece);
      '=' !in k && |k| <= |piece| && k == piece[..|k|] &&
      (HasValue(piece) ==> |k| < |piece| && piece[|k|] == '=') &&
      (!HasValue(piece) ==> k == piece)
  {
    SplitHead(piece, '=');
  }

  /** The value runs from just after the first '=' up to the second '=' or the end. */
  lemma ValueShape(piece: string)
    requires HasValue(piece)
    ensures var start := |Key(piece)| + 1;
      var v := Value(piece);
      '=' !in v && start + |v| <= |piece| && piece[start..start + |v|] == v &&
      (start + |v| < |piece| ==> piece[start + |v|] == '=')
  {
    var i := IndexOf(piece, '=');
    SplitHead(piece, '=');
    var rest := piece[i + 1..];
    KeyShape(rest);
    assert Value(piece) == Key(rest);
    assert |Key(piece)| == i;
  }

  predicate AllHaveValues(pieces: seq<string>) {
    forall k :: 0 <= k < |pieces| ==> HasValue(pieces[k])
  }

  /** The value the loop finally stores under `key`, found from the last piece backwards. */
  function Lookup(pieces: seq<string>, key: string): Option<string>
    requires AllHaveValues(pieces)
  {
    if |pieces| == 0 then None
    else
      var last := pieces[|pieces| - 1];
      if Key(last) == key then Some(Value(last))
      else Lookup(pieces[..|pieces| - 1], key)
  }

  /** The index of the last piece whose key is `key`, or -1 when there is none. */
  function LastWithKey(pieces: seq<string>, key: string): (i: int)
    ensures -1 <= i < |pieces|
    ensures i >= 0 ==> Key(pieces[i]) == key
    ensures forall j :: i < j < |pieces| ==> Key(pieces[j]) != key
  {
    if |pieces| == 0 then -1
    else if Key(pieces[|pieces| - 1]) == key then |pieces| - 1
    else LastWithKey(pieces[..|pieces| - 1], key)
  }

  /**
   * Last value wins: the lookup is absent exactly when no piece has the key,
   * and otherwise it is the value of the LAST piece that has it.
   */
  lemma {:induction false} LookupFindsLast(pieces: seq<string>, key: string)
    requires AllHaveValues(pieces)
    ensures Lookup(pieces, key).None? <==> forall k :: 0 <= k < |pieces| ==> Key(pieces[k]) != key
    ensures Lookup(pieces, key).Some? ==>
      var i := LastWithKey(pieces, key);
      i >= 0 && Lookup(pieces, key).value == Value(pieces[i])
  {
    if |pieces| > 0 {
      var n := |pieces| - 1;
      var init := pieces[..n];
      if Key(pieces[n]) != key {
        LookupFindsLast(init, key);
        assert forall k :: 0 <= k < n ==> init[k] == pieces[k];
      }
    }
  }

  /** The dictionary after the loop has stored every piece in turn. */
  function Parameters(pieces: seq<string>): (m: map<string, string>)
    requires AllHaveValues(pieces)
    ensures |m| <= |pieces|
  {
    if |pieces| == 0 then map[]
    else
      var last := pieces[|pieces| - 1];
      Parameters(pieces[..|pieces| - 1])[Key(last) := Value(last)]
  }

  /**
   * The dictionary holds exactly the keys of the pieces, each with the value
   * of its last piece, and no more entries than there are pieces.
   */
  lemma {:induction false} ParametersAreLastValues(pieces: seq<string>)
    requires AllHaveValues(pieces)
    ensures forall key :: key in Parameters(pieces) <==> Lookup(pieces, key).Some?
    ensures forall key :: key in Parameters(pieces) ==> Parameters(pieces)[key] == Lookup(pieces, key).value
    ensures |Parameters(pieces)| <= |pieces|
  {
    if |pieces| > 0 {
      var init := pieces[..|pieces| - 1];
      assert AllHaveValues(init) by {
        assert forall k :: 0 <= k < |init| ==> init[k] == pieces[k];
      }
      ParametersAreLastValues(init);
    }
  }

  /**
   * `get_parameters_from(request)`: the dictionary the loop builds, or the
   * IndexError raised at the first piece without an '='.
   */
  method GetParametersFrom(request: string) returns (r: Result<map<string, string>, string>)
    ensures r.Failure? <==> !AllHaveValues(Pieces(request))
    ensures r.Success? ==> forall key :: key in r.value <==> Lookup(Pieces(request), key).Some?
    ensures r.Success? ==> forall key :: key in r.value ==> r.value[key] == Lookup(Pieces(request), key).value
    ensures r.Success? ==> |r.value| <= |Pieces(request)|
  {
    var parameters: map<string, string> := map[];
    var paramsIndex := Find(request, MARKER);
    var ampersandSplit := Split(SliceFrom(request, paramsIndex), '&');
    assert ampersandSplit == Pieces(request);
    for i := 0 to |ampersandSplit|
      invariant AllHaveValues(ampersandSplit[..i])
      invariant parameters == Parameters(ampersandSplit[..i])
    {
      var equalSplit := Split(ampersandSplit[i], '=');
      if |equalSplit| < 2 {
        NotAllHaveValues(ampersandSplit, i);
        return Failure("IndexError: list index out of range");
      }
      ParametersStep(ampersandSplit, i);
      parameters := parameters[equalSplit[0] := equalSplit[1]];
    }
    assert ampersandSplit[..|ampersandSplit|] == ampersandSplit;
    ParametersAreLastValues(ampersandSplit);
    return Success(parameters);
  }

  /** One more piece with an '=' extends the dictionary by its key and value. */
  lemma ParametersStep(pieces: seq<string>, i: nat)
    requires i < |pieces| && AllHaveValues(pieces[..i]) && HasValue(pieces[i])
    ensures AllHaveValues(pieces[..i + 1])
    ensures Parameters(pieces[..i + 1]) == Parameters(pieces[..i])[Key(pieces[i]) := Value(pieces[i])]
  {
    assert pieces[..i + 1] == pieces[..i] + [pieces[i]];
    assert pieces[..i + 1][..i] == pieces[..i];
  }

  /** A piece without an '=' means not every piece has a value. */
  lemma NotAllHaveValues(pieces: seq<string>, i: nat)
    requires i < |pieces| && !HasValue(pieces[i])
    ensures !AllHaveValues(pieces)
  {
  }

  /** The first key of a text starts with any prefix that holds neither separator. */
  lemma KeyKeepsPrefix(p: string, rest: string)
    requires '&' !in p && '=' !in p
    ensures |Key(Split(p + rest, '&')[0])| >= |p| && Key(Split(p + rest, '&')[0])[..|p|] == p
  {
    var first := Split(p + rest, '&')[0];
    SplitKeepsPrefix(p, rest, '&');
    assert first == p + first[|p|..];
    SplitKeepsPrefix(p, first[|p|..], '=');
  }

  /**
   * When the marker is present, parsing starts at it: the first key begins
   * with the header text `Content-Length:` (and runs on to the first '=').
   */
  lemma FirstKeyStartsAtMarker(request: string)
    requires Find(request, MARKER) >= 0
    ensures |Key(Pieces(request)[0])| >= |MARKER| && Key(Pieces(request)[0])[..|MARKER|] == MARKER
  {
    assert '&' !in MARKER && '=' !in MARKER;
    FirstKeyStartsAt(request, MARKER);
  }

  /** The same for any pattern free of '&' and '=' that `find` locates. */
  lemma FirstKeyStartsAt(request: string, pat: string)
    requires Find(request, pat) >= 0 && '&' !in pat && '=' !in pat
    ensures var first := Split(SliceFrom(request, Find(request, pat)), '&')[0];
            |Key(first)| >= |pat| && Key(first)[..|pat|] == pat
  {
    var i := Find(request, pat);
    var text := request[i..];
    assert SliceFrom(request, i) == text;
    assert text == pat + text[|pat|..] by {
      assert text[..|pat|] == request[i..i + |pat|];
    }
    KeyKeepsPrefix(pat, text[|pat|..]);
  }

  /**
   * Without the marker, `find` gives -1 and only the last character of the
   * request is parsed: the only request that parses is one ending in '='.
   */
  lemma NoMarkerParsesLastCharacter(request: string)
    requires Find(request, MARKER) == -1 && |request| > 0
    ensures Pieces(request) == Split([request[|request| - 1]], '&')
    ensures AllHaveValues(Pieces(request)) <==> request[|request| - 1] == '='
  {
    var c := request[|request| - 1];
    assert SliceFrom(request, -1) == [c];
    var p := Pieces(request);
    if c == '=' {
      assert IndexOf([c], '&') == -1;
      assert p == [[c]];
    } else if c == '&' {
      assert IndexOf([c], '&') == 0;
      assert p == [[]] + Split([], '&');
      assert !HasValue(p[0]);
    } else {
      assert IndexOf([c], '&') == -1;
      assert p == [[c]];
      assert !HasValue(p[0]);
    }
  }

  // ---------------------------------------------------------------------
  // One connection of the serving loop
  // ---------------------------------------------------------------------

  /** What one pass of the accept loop does before it reaches the psk test. */
  datatype Outcome =
    | Crashed               // parsing raised before anything was sent
    | Replied(reply: string) // the reply sent before the connection was closed

  /**
   * The start of the accept loop for the received text: parse it, then
   * send the fixed reply and close. The reply does not depend on the
   * request, so every request that parses is answered 200 whatever its psk.
   */
  method ServeConnection(request: string) returns (outcome: Outcome)
    ensures outcome.Crashed? <==> !AllHaveValues(Pieces(request))
    ensures outcome.Replied? ==> outcome.reply == RESPONSE
  {
    var parsed := GetParametersFrom(request);
    if parsed.Failure? {
      return Crashed;
    }
    return Replied(RESPONSE);
  }
}
