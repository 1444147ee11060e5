/** Query strings as the storefront writes them (`key=value&` segments appended to the
    URL) and as the server reads them back into `req.query`: split on '&', empty pieces
    dropped, each piece split at its first '='. */
module QueryString {

  /** One `key=value&` segment. */
  function Segment(key: string, value: string): string
  {
    key + "=" + value + "&"
  }

  /** The segments of `pairs`, in order. */
  function Encode(pairs: seq<(string, string)>): string
  {
    if pairs == [] then "" else Segment(pairs[0].0, pairs[0].1) + Encode(pairs[1..])
  }

  /** The position of the first `c` in `s`. */
  function FirstIndex(s: string, c: char): (i: nat)
    requires c in s
    ensures i < |s| && s[i] == c && c !in s[..i]
  {
    if s[0] == c then 0
    else
      assert c in s[1..] by {
        assert s == [s[0]] + s[1..];
      }
      var j := FirstIndex(s[1..], c);
      assert s[..j + 1] == [s[0]] + s[1..][..j];
      1 + j
  }

  /** `s.split(sep)`: the pieces between separators, so "" gives [""] and a trailing
      separator gives a trailing "". */
  function Split(s: string, sep: char): (pieces: seq<string>)
    ensures |pieces| > 0
    decreases |s|
  {
    if sep !in s then [s]
    else
      var i := FirstIndex(s, sep);
      [s[..i]] + Split(s[i + 1..], sep)
  }

  /** A piece `key=value` read at its first '='; a piece without '=' is a key with the
      empty value. */
  function ParsePiece(piece: string): (kv: (string, string))
    ensures '=' !in kv.0
    ensures '=' in piece ==> piece == kv.0 + "=" + kv.1
    ensures '=' !in piece ==> kv == (piece, "")
  {
    if '=' in piece then
      var i := FirstIndex(piece, '=');
      assert piece == piece[..i] + "=" + piece[i + 1..];
      (piece[..i], piece[i + 1..])
    else (piece, "")
  }

  /** The non-empty pieces, parsed. */
  function ParsePieces(pieces: seq<string>): seq<(string, string)>
  {
    if pieces == [] then []
    else if pieces[0] == "" then ParsePieces(pieces[1..])
    else [ParsePiece(pieces[0])] + ParsePieces(pieces[1..])
  }

  /** The key/value pairs the server reads from the text after '?'. */
  function Parse(query: string): seq<(string, string)>
  {
    ParsePieces(Split(query, '&'))
  }

  /** The value of `key`: the first pair with that key, "" when there is none (which the
      handlers treat like an absent key). */
  function Lookup(pairs: seq<(string, string)>, key: string): (v: string)
    ensures (forall k :: 0 <= k < |pairs| ==> pairs[k].0 != key) ==> v == ""
  {
    if pairs == [] then "" else if pairs[0].0 == key then pairs[0].1 else Lookup(pairs[1..], key)
  }

  /** A key the client writes: non-empty, with no '&' and no '='. */
  predicate SafeKey(key: string)
  {
    key != "" && '&' !in key && '=' !in key
  }

  /** A value that survives being written into the URL without encoding: no '&', which
      would end the piece, and no '#', '%' or '+', which the browser or the server's
      decoding would change. */
  predicate SafeValue(value: string)
  {
    '&' !in value && '#' !in value && '%' !in value && '+' !in value
  }

  /** Every key is one the client may write. */
  predicate SafeKeys(pairs: seq<(string, string)>)
  {
    forall k :: 0 <= k < |pairs| ==> SafeKey(pairs[k].0)
  }

  predicate SafePairs(pairs: seq<(string, string)>)
  {
    forall k :: 0 <= k < |pairs| ==> SafeKey(pairs[k].0) && SafeValue(pairs[k].1)
  }

  /** Splitting at a separator that the first piece does not contain. */
  lemma SplitFirst(p: string, rest: string, sep: char)
    requires sep !in p
    ensures Split(p + [sep] + rest, sep) == [p] + Split(rest, sep)
  {
    var s := p + [sep] + rest;
    assert s[|p|] == sep;
    var i := FirstIndex(s, sep);
    assert s[..i] == p && s[i + 1..] == rest;
  }

  /** A written segment reads back as its own key and value. */
  lemma ParseSegment(key: string, value: string)
    requires SafeKey(key) && '&' !in value
    ensures '&' !in key + "=" + value
    ensures key + "=" + value != ""
    ensures ParsePiece(key + "=" + value) == (key, value)
  {
    var piece := key + "=" + value;
    assert forall c :: c in piece ==> c in key || c == '=' || c in value;
    assert piece[|key|] == '=';
    var i := FirstIndex(piece, '=');
    assert piece[..i] == key;
  }

  /** Pairs whose pieces the server splits where the client joined them: safe keys and no
      '&' in any value. */
  predicate Splittable(pairs: seq<(string, string)>)
  {
    forall k :: 0 <= k < |pairs| ==> SafeKey(pairs[k].0) && '&' !in pairs[k].1
  }

  /** The server splits back exactly the pairs the client wrote, as long as no key or value
      holds a delimiter. */
  lemma {:induction false} ParseEncode(pairs: seq<(string, string)>)
    requires Splittable(pairs)
    ensures Parse(Encode(pairs)) == pairs
  {
    if pairs != [] {
      var key, value := pairs[0].0, pairs[0].1;
      var piece, rest := key + "=" + value, Encode(pairs[1..]);
      assert Splittable(pairs[1..]) by {
        forall k | 0 <= k < |pairs[1..]| ensures SafeKey(pairs[1..][k].0) && '&' !in pairs[1..][k].1 {
          assert pairs[1..][k] == pairs[k + 1];
        }
      }
      ParseEncode(pairs[1..]);
      ParseSegment(key, value);
      assert Encode(pairs) == piece + "&" + rest;
      SplitFirst(piece, rest, '&');
      assert Parse(Encode(pairs)) == [ParsePiece(piece)] + Parse(rest);
    } else {
      assert Split("", '&') == [""];
    }
  }

  /** `encodeURIComponent` restricted to the characters that matter here: '%', '&', '#'
      and '+' become their `%XX` escapes, every other character is kept. */
  function EscapeChar(c: char): string
  {
    if c == '%' then "%25" else if c == '&' then "%26" else if c == '#' then "%23" else if c == '+' then "%2B" else [c]
  }

  function Escape(v: string): (e: string)
    ensures '&' !in e
  {
    if v == [] then [] else EscapeChar(v[0]) + Escape(v[1..])
  }

  predicate IsHex(c: char)
  {
    '0' <= c <= '9' || 'A' <= c <= 'F' || 'a' <= c <= 'f'
  }

  function HexValue(c: char): (n: nat)
    requires IsHex(c)
    ensures n < 16
  {
    if '0' <= c <= '9' then (c as int - '0' as int) as nat
    else if 'A' <= c <= 'F' then (c as int - 'A' as int + 10) as nat
    else (c as int - 'a' as int + 10) as nat
  }

  /** The server's decoding of a query value: `%XX` with two hex digits is that byte's
      character, '+' is a space, anything else is kept. */
  function Unescape(s: string): string
  {
    if s == [] then []
    else if |s| >= 3 && s[0] == '%' && IsHex(s[1]) && IsHex(s[2]) then
      [(16 * HexValue(s[1]) + HexValue(s[2])) as char] + Unescape(s[3..])
    else if s[0] == '+' then " " + Unescape(s[1..])
    else [s[0]] + Unescape(s[1..])
  }

  /** Decoding reads each escape back as the character it stands for. */
  lemma UnescapeEscapeChar(c: char, rest: string)
    ensures Unescape(EscapeChar(c) + rest) == [c] + Unescape(rest)
  {
    var s := EscapeChar(c) + rest;
    if c == '%' || c == '&' || c == '#' || c == '+' {
      assert s[3..] == rest;
    } else {
      assert s[1..] == rest;
    }
  }

  /** The server decodes an escaped value back to the value itself, whatever it holds. */
  lemma {:induction false} UnescapeEscape(v: string)
    ensures Unescape(Escape(v)) == v
  {
    if v != [] {
      UnescapeEscape(v[1..]);
      UnescapeEscapeChar(v[0], Escape(v[1..]));
    }
  }

  /** A value without '%' or '+' decodes to itself, so for safe values reading the raw
      text is reading the decoded one. */
  lemma {:induction false} UnescapeSafe(v: string)
    requires '%' !in v && '+' !in v
    ensures Unescape(v) == v
  {
    if v != [] {
      assert v[0] in v;
      assert forall c :: c in v[1..] ==> c in v;
      UnescapeSafe(v[1..]);
    }
  }

  function EscapePairs(pairs: seq<(string, string)>): (e: seq<(string, string)>)
    ensures |e| == |pairs|
    ensures forall k :: 0 <= k < |e| ==> e[k] == (pairs[k].0, Escape(pairs[k].1))
  {
    seq(|pairs|, k requires 0 <= k < |pairs| => (pairs[k].0, Escape(pairs[k].1)))
  }

  /** The pairs as the server holds them after decoding each value. */
  function DecodeValues(pairs: seq<(string, string)>): (d: seq<(string, string)>)
    ensures |d| == |pairs|
    ensures forall k :: 0 <= k < |d| ==> d[k] == (pairs[k].0, Unescape(pairs[k].1))
  {
    seq(|pairs|, k requires 0 <= k < |pairs| => (pairs[k].0, Unescape(pairs[k].1)))
  }

  /** With every value escaped, any values at all reach the server as written, as long
      as the keys are safe. */
  lemma EscapedRoundTrip(pairs: seq<(string, string)>)
    requires SafeKeys(pairs)
    ensures DecodeValues(Parse(Encode(EscapePairs(pairs)))) == pairs
  {
    ParseEncode(EscapePairs(pairs));
    forall k | 0 <= k < |pairs| ensures Unescape(Escape(pairs[k].1)) == pairs[k].1 {
      UnescapeEscape(pairs[k].1);
    }
  }
}
