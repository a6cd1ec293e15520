/** Finding the top-level "model" field of a request body by skipping tokens, without
    building the parse tree, and giving the body back unread.

    Lexing is not modelled: a decoder delivers the tokens of the bytes it was given. */
module JsonScan {

  import opened Wrappers

  datatype Token = OpenObject | CloseObject | OpenArray | CloseArray | Text(text: string) | Scalar

  /** Parse trees.  A literal is a number, true, false or null; which one is not kept, so
      that a number cut short by the end of the input gives the token of the whole one. */
  datatype Json = Object(fields: Fields) | Array(items: Items) | String(text: string) | Literal
  datatype Fields = NoFields | Field(key: string, value: Json, rest: Fields)
  datatype Items = NoItems | Item(value: Json, rest: Items)

  function Tokens(v: Json): seq<Token> {
    match v
    case Object(fields) => [OpenObject] + FieldTokens(fields) + [CloseObject]
    case Array(items) => [OpenArray] + ItemTokens(items) + [CloseArray]
    case String(text) => [Text(text)]
    case Literal => [Scalar]
  }

  function FieldTokens(fields: Fields): seq<Token> {
    match fields
    case NoFields => []
    case Field(key, value, rest) => [Text(key)] + Tokens(value) + FieldTokens(rest)
  }

  function ItemTokens(items: Items): seq<Token> {
    match items
    case NoItems => []
    case Item(value, rest) => Tokens(value) + ItemTokens(rest)
  }

  // ------------------------------------------------- what the scan computes

  function Depth(depth: nat, t: Token): int {
    match t
    case OpenObject => depth + 1
    case OpenArray => depth + 1
    case CloseObject => depth - 1
    case CloseArray => depth - 1
    case _ => depth
  }

  /** The tokens left when the brackets opened so far have been closed; None if the
      tokens run out first. */
  function SkipDepth(ts: seq<Token>, depth: nat): (r: Option<seq<Token>>)
    ensures r.Some? ==> |r.value| <= |ts|
  {
    if depth == 0 then Some(ts)
    else if ts == [] then None
    else SkipDepth(ts[1..], Depth(depth, ts[0]))
  }

  /** The tokens left after the value at the front; None if there is no whole value. */
  function Skip(ts: seq<Token>): (r: Option<seq<Token>>)
    ensures r.Some? ==> |r.value| < |ts|
  {
    if ts == [] || ts[0].CloseObject? || ts[0].CloseArray? then None
    else if ts[0].OpenObject? || ts[0].OpenArray? then SkipDepth(ts[1..], 1)
    else Some(ts[1..])
  }

  /** Case-insensitive comparison with "model"; its letters fold to ASCII letters only. */
  predicate IsModelKey(key: string) {
    |key| == 5 && forall i :: 0 <= i < 5 ==> LowerChar(key[i]) == "model"[i]
  }

  /** The names that a decoder would match with the field "model". */
  lemma ModelKeysIgnoreCase(key: string)
    ensures IsModelKey(key) <==> Lower(key) == "model"
  {
    if IsModelKey(key) {
      assert forall i :: 0 <= i < 5 ==> Lower(key)[i] == "model"[i];
    }
    if Lower(key) == "model" {
      assert forall i :: 0 <= i < 5 ==> LowerChar(key[i]) == Lower(key)[i];
    }
  }

  function ScanFields(ts: seq<Token>): string
    decreases |ts|
  {
    if ts == [] || !ts[0].Text? then ""
    else
      match Skip(ts[1..])
      case None => ""
      case Some(rest) =>
        if IsModelKey(ts[0].text) && ts[1].Text? && ts[1].text != "" then ts[1].text else ScanFields(rest)
  }

  function Scan(ts: seq<Token>): string {
    if ts == [] || ts[0] != OpenObject then "" else ScanFields(ts[1..])
  }

  // ---------------------------------------------------------- the decoder

  class Decoder {
    const tokens: seq<Token>
    var pos: nat

    ghost predicate Valid()
      reads this
    {
      pos <= |tokens|
    }

    function Rest(): seq<Token>
      reads this
      requires Valid()
    {
      tokens[pos..]
    }

    constructor (tokens: seq<Token>)
      ensures Valid() && Rest() == tokens && this.tokens == tokens
    {
      this.tokens := tokens;
      pos := 0;
    }

    method Token() returns (tok: Option<Token>)
      requires Valid()
      modifies this
      ensures Valid()
      ensures old(Rest()) == [] ==> tok == None && Rest() == []
      ensures old(Rest()) != [] ==> tok == Some(old(Rest())[0]) && Rest() == old(Rest())[1..]
    {
      if pos == |tokens| {
        return None;
      }
      pos := pos + 1;
      return Some(tokens[pos - 1]);
    }

    method More() returns (more: bool)
      requires Valid()
      ensures more <==> Rest() != [] && !Rest()[0].CloseObject? && !Rest()[0].CloseArray?
    {
      more := pos < |tokens| && !tokens[pos].CloseObject? && !tokens[pos].CloseArray?;
    }

    method SkipValueTokens() returns (ok: bool)
      requires Valid()
      modifies this
      ensures Valid()
      ensures ok <==> Skip(old(Rest())).Some?
      ensures ok ==> Rest() == Skip(old(Rest())).value
    {
      var tok := Token();
      if tok == None {
        return false;
      }
      if tok.value.Text? || tok.value.Scalar? {
        return true;
      }
      if tok.value != OpenObject && tok.value != OpenArray {
        return false;
      }
      var depth := 1;
      while depth > 0
        invariant Valid() && depth >= 0
        invariant SkipDepth(Rest(), depth) == Skip(old(Rest()))
        decreases |Rest()|, depth
      {
        tok := Token();
        if tok == None {
          return false;
        }
        match tok.value {
          case OpenObject => depth := depth + 1;
          case OpenArray => depth := depth + 1;
          case CloseObject => depth := depth - 1;
          case CloseArray => depth := depth - 1;
          case _ =>
        }
      }
      return true;
    }

    /** Reads a whole value; the text if it is a string, "" if it is anything else. */
    method Decode() returns (ok: bool, text: string)
      requires Valid()
      modifies this
      ensures Valid()
      ensures ok <==> Skip(old(Rest())).Some?
      ensures ok ==> Rest() == Skip(old(Rest())).value
      ensures ok ==> text == if old(Rest())[0].Text? then old(Rest())[0].text else ""
    {
      text := if pos < |tokens| && tokens[pos].Text? then tokens[pos].text else "";
      ok := SkipValueTokens();
    }
  }

  method ExtractTopLevelModelField(dec: Decoder) returns (model: string)
    requires dec.Valid()
    modifies dec
    ensures model == Scan(old(dec.Rest()))
  {
    ghost var all := dec.Rest();
    var tok := dec.Token();
    if tok == None || tok.value != OpenObject {
      return "";
    }
    var more := dec.More();
    while more
      invariant dec.Valid()
      invariant Scan(all) == ScanFields(dec.Rest())
      invariant more <==> dec.Rest() != [] && !dec.Rest()[0].CloseObject? && !dec.Rest()[0].CloseArray?
      decreases |dec.Rest()|
    {
      tok := dec.Token();
      if tok == None || !tok.value.Text? {
        return "";
      }
      if IsModelKey(tok.value.text) {
        var ok, text := dec.Decode();
        if !ok {
          return "";
        }
        if text != "" {
          return text;
        }
      } else {
        var ok := dec.SkipValueTokens();
        if !ok {
          return "";
        }
      }
      more := dec.More();
    }
    return "";
  }

  // --------------------------------------------- skipping against the tree

  lemma {:induction false} DepthPassesValue(v: Json, r: seq<Token>, depth: nat)
    requires depth > 0
    ensures SkipDepth(Tokens(v) + r, depth) == SkipDepth(r, depth)
    decreases v
  {
    match v
    case Object(fields) =>
      var tail := [CloseObject] + r;
      assert Tokens(v) + r == [OpenObject] + (FieldTokens(fields) + tail);
      assert ([OpenObject] + (FieldTokens(fields) + tail))[1..] == FieldTokens(fields) + tail;
      DepthPassesFields(fields, tail, depth + 1);
      assert tail[1..] == r;
    case Array(items) =>
      var tail := [CloseArray] + r;
      assert Tokens(v) + r == [OpenArray] + (ItemTokens(items) + tail);
      assert ([OpenArray] + (ItemTokens(items) + tail))[1..] == ItemTokens(items) + tail;
      DepthPassesItems(items, tail, depth + 1);
      assert tail[1..] == r;
    case _ =>
      assert (Tokens(v) + r)[1..] == r;
  }

  lemma {:induction false} DepthPassesFields(fields: Fields, r: seq<Token>, depth: nat)
    requires depth > 0
    ensures SkipDepth(FieldTokens(fields) + r, depth) == SkipDepth(r, depth)
    decreases fields
  {
    match fields
    case NoFields =>
      assert FieldTokens(fields) + r == r;
    case Field(key, value, rest) =>
      var tail := FieldTokens(rest) + r;
      assert FieldTokens(fields) + r == [Text(key)] + (Tokens(value) + tail);
      assert ([Text(key)] + (Tokens(value) + tail))[1..] == Tokens(value) + tail;
      DepthPassesValue(value, tail, depth);
      DepthPassesFields(rest, r, depth);
  }

  lemma {:induction false} DepthPassesItems(items: Items, r: seq<Token>, depth: nat)
    requires depth > 0
    ensures SkipDepth(ItemTokens(items) + r, depth) == SkipDepth(r, depth)
    decreases items
  {
    match items
    case NoItems =>
      assert ItemTokens(items) + r == r;
    case Item(value, rest) =>
      var tail := ItemTokens(rest) + r;
      assert ItemTokens(items) + r == Tokens(value) + tail;
      DepthPassesValue(value, tail, depth);
      DepthPassesItems(rest, r, depth);
  }

  /** Counting brackets skips exactly one value, whatever follows it. */
  lemma SkipIsExact(v: Json, r: seq<Token>)
    ensures Skip(Tokens(v) + r) == Some(r)
  {
    match v
    case Object(fields) =>
      Bracketed(OpenObject, FieldTokens(fields), CloseObject, r);
      DepthPassesFields(fields, [CloseObject] + r, 1);
    case Array(items) =>
      Bracketed(OpenArray, ItemTokens(items), CloseArray, r);
      DepthPassesItems(items, [CloseArray] + r, 1);
    case _ =>
      assert (Tokens(v) + r)[1..] == r;
  }

  /** What is behind an opening bracket, and behind a closing one. */
  lemma Bracketed(open: Token, inner: seq<Token>, close: Token, r: seq<Token>)
    ensures ([open] + inner + [close] + r)[0] == open
    ensures ([open] + inner + [close] + r)[1..] == inner + ([close] + r)
    ensures ([close] + r)[0] == close && ([close] + r)[1..] == r
  {
  }

  // ------------------------------------------------------ truncated streams

  /** A prefix of two parts ends in the first, or holds it and a prefix of the second. */
  lemma PrefixOfBoth(p: seq<Token>, a: seq<Token>, b: seq<Token>)
    requires p <= a + b
    ensures |p| <= |a| ==> p <= a
    ensures |p| >= |a| ==> p == a + p[|a|..] && p[|a|..] <= b
  {
  }

  lemma {:induction false} DepthRunsOutInValue(v: Json, p: seq<Token>, depth: nat)
    requires depth > 0 && p <= Tokens(v)
    ensures SkipDepth(p, depth) == None
    decreases v
  {
    if p != [] {
      match v
      case Object(fields) =>
        assert Tokens(v)[1..] == FieldTokens(fields) + [CloseObject];
        if |p| - 1 <= |FieldTokens(fields)| {
          DepthRunsOutInFields(fields, p[1..], depth + 1);
        } else {
          assert p[1..] == FieldTokens(fields) + [CloseObject];
          DepthPassesFields(fields, [CloseObject], depth + 1);
          assert [CloseObject][1..] == [];
        }
      case Array(items) =>
        assert Tokens(v)[1..] == ItemTokens(items) + [CloseArray];
        if |p| - 1 <= |ItemTokens(items)| {
          DepthRunsOutInItems(items, p[1..], depth + 1);
        } else {
          assert p[1..] == ItemTokens(items) + [CloseArray];
          DepthPassesItems(items, [CloseArray], depth + 1);
          assert [CloseArray][1..] == [];
        }
      case _ =>
        assert p == Tokens(v) && p[1..] == [];
    }
  }

  lemma {:induction false} DepthRunsOutInFields(fields: Fields, p: seq<Token>, depth: nat)
    requires depth > 0 && p <= FieldTokens(fields)
    ensures SkipDepth(p, depth) == None
    decreases fields
  {
    if p != [] {
      var value, rest := fields.value, fields.rest;
      assert FieldTokens(fields)[1..] == Tokens(value) + FieldTokens(rest);
      PrefixOfBoth(p[1..], Tokens(value), FieldTokens(rest));
      if |p| - 1 <= |Tokens(value)| {
        DepthRunsOutInValue(value, p[1..], depth);
      } else {
        var q := p[1..][|Tokens(value)|..];
        DepthPassesValue(value, q, depth);
        DepthRunsOutInFields(rest, q, depth);
      }
    }
  }

  lemma {:induction false} DepthRunsOutInItems(items: Items, p: seq<Token>, depth: nat)
    requires depth > 0 && p <= ItemTokens(items)
    ensures SkipDepth(p, depth) == None
    decreases items
  {
    if p != [] {
      var value, rest := items.value, items.rest;
      PrefixOfBoth(p, Tokens(value), ItemTokens(rest));
      if |p| <= |Tokens(value)| {
        DepthRunsOutInValue(value, p, depth);
      } else {
        var q := p[|Tokens(value)|..];
        DepthPassesValue(value, q, depth);
        DepthRunsOutInItems(rest, q, depth);
      }
    }
  }

  /** A value that is cut short is never skipped. */
  lemma SkipNeedsWholeValue(v: Json, p: seq<Token>)
    requires p <= Tokens(v) && |p| < |Tokens(v)|
    ensures Skip(p) == None
  {
    if p != [] {
      match v
      case Object(fields) =>
        assert p[1..] <= FieldTokens(fields);
        DepthRunsOutInFields(fields, p[1..], 1);
      case Array(items) =>
        assert p[1..] <= ItemTokens(items);
        DepthRunsOutInItems(items, p[1..], 1);
      case _ =>
    }
  }

  // ------------------------------------------------------------- main results

  predicate IsModelField(key: string, value: Json) {
    IsModelKey(key) && value.String? && value.text != ""
  }

  /** The answer read off the tree: the first top-level "model" key, in any case, whose
      value is a non-empty string. */
  function FirstModel(fields: Fields): string {
    match fields
    case NoFields => ""
    case Field(key, value, rest) => if IsModelField(key, value) then value.text else FirstModel(rest)
  }

  /** How many tokens of the fields are needed to see that answer. */
  function Needed(fields: Fields): nat {
    match fields
    case NoFields => 0
    case Field(key, value, rest) => 1 + |Tokens(value)| + if IsModelField(key, value) then 0 else Needed(rest)
  }

  lemma {:induction false} ScanFieldsOfTree(fields: Fields, p: seq<Token>, r: seq<Token>)
    requires p <= FieldTokens(fields) + [CloseObject] + r
    ensures ScanFields(p) == if |p| >= Needed(fields) then FirstModel(fields) else ""
    decreases fields
  {
    match fields
    case NoFields =>
    case Field(key, value, rest) =>
      if p != [] {
        var more := FieldTokens(rest) + [CloseObject] + r;
        FieldAhead(key, value, rest, p, r);
        if |p| - 1 < |Tokens(value)| {
          SkipNeedsWholeValue(value, p[1..]);
        } else {
          var q := p[1 + |Tokens(value)|..];
          SkipIsExact(value, q);
          ScanFieldsOfTree(rest, q, r);
          FirstToken(value, q);
        }
      }
  }

  /** The tokens start with the key; then they break off inside the value, or go on behind. */
  lemma FieldAhead(key: string, value: Json, rest: Fields, p: seq<Token>, r: seq<Token>)
    requires p != [] && p <= FieldTokens(Field(key, value, rest)) + [CloseObject] + r
    ensures p[0] == Text(key)
    ensures |p| - 1 < |Tokens(value)| ==> p[1..] <= Tokens(value)
    ensures |p| - 1 >= |Tokens(value)| ==>
              var q := p[1 + |Tokens(value)|..];
              p[1..] == Tokens(value) + q && q <= FieldTokens(rest) + [CloseObject] + r
  {
    Regrouped(Text(key), Tokens(value), FieldTokens(rest), [CloseObject], r);
    Ahead(Text(key), Tokens(value), FieldTokens(rest) + [CloseObject] + r, p);
  }

  lemma Regrouped(t: Token, a: seq<Token>, b: seq<Token>, c: seq<Token>, d: seq<Token>)
    ensures [t] + a + b + c + d == [t] + (a + (b + c + d))
  {
  }

  lemma Ahead(t: Token, a: seq<Token>, more: seq<Token>, p: seq<Token>)
    requires p != [] && p <= [t] + (a + more)
    ensures p[0] == t
    ensures |p| - 1 < |a| ==> p[1..] <= a
    ensures |p| - 1 >= |a| ==> p[1..] == a + p[1 + |a|..] && p[1 + |a|..] <= more
  {
    assert p[1..] <= a + more;
    PrefixOfBoth(p[1..], a, more);
    if |p| - 1 >= |a| {
      assert p[1..][|a|..] == p[1 + |a|..];
    }
  }

  lemma FirstToken(v: Json, q: seq<Token>)
    ensures |Tokens(v)| > 0 && ((Tokens(v) + q)[0].Text? <==> v.String?)
    ensures v.String? ==> (Tokens(v) + q)[0] == Text(v.text)
  {
  }

  /** On any cut of the token stream of an object the scan gives the tree's answer as soon
      as the tokens reach its field, and "" before that. */
  lemma ScanOfObject(fields: Fields, r: seq<Token>, n: nat)
    requires n <= |Tokens(Object(fields)) + r|
    ensures Scan((Tokens(Object(fields)) + r)[..n]) == if n >= 1 + Needed(fields) then FirstModel(fields) else ""
  {
    var all := Tokens(Object(fields)) + r;
    if n > 0 {
      assert all[1..] == FieldTokens(fields) + [CloseObject] + r;
      assert all[..n][1..] == all[1..][..n - 1];
      ScanFieldsOfTree(fields, all[1..][..n - 1], r);
    }
  }

  /** On the whole stream it gives exactly the tree's answer. */
  lemma ScanIsExact(fields: Fields, r: seq<Token>)
    ensures Scan(Tokens(Object(fields)) + r) == FirstModel(fields)
  {
    var all := Tokens(Object(fields)) + r;
    NeededFits(fields);
    ScanOfObject(fields, r, |all|);
    assert all[..|all|] == all;
  }

  lemma {:induction false} NeededFits(fields: Fields)
    ensures Needed(fields) <= |FieldTokens(fields)|
  {
    if fields.Field? {
      NeededFits(fields.rest);
    }
  }

  /** Nothing is found in a value that is not an object. */
  lemma ScanOfOtherValues(v: Json, r: seq<Token>)
    requires !v.Object?
    ensures Scan(Tokens(v) + r) == ""
  {
  }

  // -------------------------------------------------- restoring a large body

  const MODEL_SCAN_SIZE := 8 * 1024 * 1024

  function Min(a: nat, b: nat): (least: nat)
    ensures least <= a && least <= b && (least == a || least == b)
  {
    if a <= b then a else b
  }

  /** A body that is read through a limit, every byte handed out being captured. */
  class TeeReader {
    var unread: seq<bv8>
    var captured: seq<bv8>
    var limit: nat
    ghost const original: seq<bv8>

    ghost predicate Valid()
      reads this
    {
      captured + unread == original && |captured| + limit == MODEL_SCAN_SIZE
    }

    constructor (body: seq<bv8>)
      ensures Valid() && original == body && captured == []
    {
      unread, captured, limit := body, [], MODEL_SCAN_SIZE;
      original := body;
    }

    /** size is the room in the caller's buffer, got what the connection delivers. */
    method Read(size: nat, got: nat) returns (chunk: seq<bv8>)
      requires Valid()
      modifies this
      ensures Valid()
      ensures captured == old(captured) + chunk && old(unread) == chunk + unread
      ensures |chunk| == Min(Min(size, got), Min(old(limit), |old(unread)|))
    {
      var n := if got < size then got else size;
      if limit < n {
        n := limit;
      }
      if |unread| < n {
        n := |unread|;
      }
      chunk := unread[..n];
      captured, unread, limit := captured + chunk, unread[n..], limit - n;
    }
  }

  /** A longer input only adds tokens: what a cut leaves of a string or a name gives no
      token, and what it leaves of a number the same token or none.  A token that is no
      number is never taken back. */
  ghost predicate Streams(lex: seq<bv8> -> seq<Token>, body: seq<bv8>) {
    && (forall n: nat :: n <= |body| ==> lex(body[..n]) <= lex(body))
    && (forall m: nat, n: nat :: m <= n <= |body| && lex(body[..m]) != [] && lex(body[..m])[|lex(body[..m])| - 1] != Scalar
          ==> lex(body[..m]) <= lex(body[..n]))
  }

  /** What the connection offers in a number of reads. */
  function Offered(portions: seq<(nat, nat)>): nat {
    if portions == [] then 0
    else
      var (size, got) := portions[|portions| - 1];
      Offered(portions[..|portions| - 1]) + Min(size, got)
  }

  /** How much of a body the reads hand out. */
  function Seen(length: nat, portions: seq<(nat, nat)>): nat {
    Min(Offered(portions), Min(MODEL_SCAN_SIZE, length))
  }

  lemma SeenIsLeast(length: nat, portions: seq<(nat, nat)>)
    ensures var seen := Seen(length, portions);
            && seen <= length && seen <= MODEL_SCAN_SIZE && seen <= Offered(portions)
            && (seen == length || seen == MODEL_SCAN_SIZE || seen == Offered(portions))
  {
  }

  /** The large-body path.  portions are the reads the decoder makes before it
      stops: at the answer, at an error, at the limit or at the end. */
  method InspectLarge(body: seq<bv8>, lex: seq<bv8> -> seq<Token>, portions: seq<(nat, nat)>,
                      normalise: string -> string, profileModel: string)
    returns (modelName: string, restored: seq<bv8>)
    ensures restored == body
    ensures modelName == var found := Scan(lex(body[..Seen(|body|, portions)]));
                         if found != "" then normalise(found) else profileModel
  {
    var tee := new TeeReader(body);
    for i := 0 to |portions|
      invariant tee.Valid() && tee.original == body && fresh(tee)
      invariant |tee.captured| == Seen(|body|, portions[..i])
    {
      assert portions[..i + 1][..i] == portions[..i];
      var chunk := tee.Read(portions[i].0, portions[i].1);
    }
    assert portions[..|portions|] == portions;
    assert body[..Seen(|body|, portions)] == tee.captured;
    var dec := new Decoder(lex(tee.captured));
    var found := ExtractTopLevelModelField(dec);
    restored := tee.captured + tee.unread;
    modelName := if found != "" then normalise(found) else profileModel;
  }

  /** Hence a large request is routed by its own model name or not by name at all. */
  lemma LargeBodyAnswer(body: seq<bv8>, lex: seq<bv8> -> seq<Token>, fields: Fields, seen: nat)
    requires Streams(lex, body) && lex(body) == Tokens(Object(fields)) && seen <= |body|
    ensures Scan(lex(body[..seen])) == FirstModel(fields) || Scan(lex(body[..seen])) == ""
    ensures |lex(body[..seen])| > Needed(fields) || FirstModel(fields) == ""
       <==> Scan(lex(body[..seen])) == FirstModel(fields)
  {
    var all := Tokens(Object(fields));
    var n := |lex(body[..seen])|;
    assert lex(body[..seen]) == (all + [])[..n];
    ScanOfObject(fields, [], n);
  }

  /** When the reads hand out the body up to some point where the tokens end with the value of
      its model field, the answer is that model, however much more they hand out. */
  lemma ModelInReachIsFound(body: seq<bv8>, lex: seq<bv8> -> seq<Token>, fields: Fields, portions: seq<(nat, nat)>, end: nat)
    requires Streams(lex, body) && lex(body) == Tokens(Object(fields)) && FirstModel(fields) != ""
    requires end <= |body| && |lex(body[..end])| == 1 + Needed(fields)
    requires end <= MODEL_SCAN_SIZE && end <= Offered(portions)
    ensures Scan(lex(body[..Seen(|body|, portions)])) == FirstModel(fields)
  {
    var seen := Seen(|body|, portions);
    EndsInText(fields, []);
    var cut := lex(body[..end]);
    assert cut == lex(body)[..1 + Needed(fields)];
    assert cut[Needed(fields)] == Tokens(Object(fields))[Needed(fields)];
    assert cut <= lex(body[..seen]);
    LargeBodyAnswer(body, lex, fields, seen);
  }

  /** The last of the tokens needed is the value of the field. */
  lemma {:induction false} EndsInText(fields: Fields, r: seq<Token>)
    requires FirstModel(fields) != ""
    ensures 0 < Needed(fields) <= |FieldTokens(fields)|
    ensures FieldTokens(fields)[Needed(fields) - 1] == Text(FirstModel(fields))
    ensures Tokens(Object(fields))[Needed(fields)] == Text(FirstModel(fields))
  {
    if !IsModelField(fields.key, fields.value) {
      EndsInText(fields.rest, r);
    }
    NeededFits(fields);
  }
}
