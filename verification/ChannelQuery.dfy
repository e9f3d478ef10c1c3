/**
 The query language for channel lists: a text such as
   (type == 1) && (provider == "A B") FROM BOUQUET "bouquets.tv" ORDER BY name
 is cut into tokens, rid of its FROM and ORDER clauses, and parsed into a tree
 that a service is checked against. Strings are seen as sequences of bytes.
 What sscanf reads out of a channel id is a parameter.
 */
module ChannelQuery {

  import opened Wrappers

  datatype Kind = Name | Provider | Type | Bouquet | SatellitePosition | ChannelId | Flags

  function KindName(k: Kind): (t: string) {
    match k
    case Name => "name"
    case Provider => "provider"
    case Type => "type"
    case Bouquet => "bouquet"
    case SatellitePosition => "satellitePosition"
    case ChannelId => "channelID"
    case Flags => "flags"
  }

  /** decodeType */
  function DecodeType(t: string): (k: Option<Kind>)
    ensures k.Some? ==> t == KindName(k.value)
    ensures k.None? ==> forall j :: KindName(j) != t
  {
    if t == "name" then Some(Name)
    else if t == "provider" then Some(Provider)
    else if t == "type" then Some(Type)
    else if t == "bouquet" then Some(Bouquet)
    else if t == "satellitePosition" then Some(SatellitePosition)
    else if t == "channelID" then Some(ChannelId)
    else if t == "flags" then Some(Flags)
    else None
  }

  lemma DecodesItsName(k: Kind)
    ensures DecodeType(KindName(k)) == Some(k)
  {
    var t := KindName(k);
    assert |t| == match k case Name => 4 case Provider => 8 case Type => 4 case Bouquet => 7
      case SatellitePosition => 17 case ChannelId => 9 case Flags => 5;
    assert t[0] == match k case Name => 'n' case Provider => 'p' case Type => 't' case Bouquet => 'b'
      case SatellitePosition => 's' case ChannelId => 'c' case Flags => 'f';
  }

  lemma Names()
    ensures DecodeType("name") == Some(Name) && DecodeType("provider") == Some(Provider)
    ensures DecodeType("type") == Some(Type) && DecodeType("bouquet") == Some(Bouquet)
    ensures DecodeType("satellitePosition") == Some(SatellitePosition)
    ensures DecodeType("channelID") == Some(ChannelId) && DecodeType("flags") == Some(Flags)
  {
    DecodesItsName(Name);
    DecodesItsName(Provider);
    DecodesItsName(Type);
    DecodesItsName(Bouquet);
    DecodesItsName(SatellitePosition);
    DecodesItsName(ChannelId);
    DecodesItsName(Flags);
  }

  // ---------------------------------------------------------------- tokens

  /** strchr also finds the terminator of the string it searches. */
  predicate IsSplit(c: char) {
    c == '(' || c == ')' || c == '\0'
  }

  predicate IsAlnum(c: char) {
    '0' <= c <= '9' || 'A' <= c <= 'Z' || 'a' <= c <= 'z'
  }

  /** The variables of the tokenizer. */
  datatype Scan = Scan(tokens: seq<string>, token: string, quoted: bool, lastSplit: bool, lastAlnum: bool)

  const START := Scan([], "", false, false, false)

  function Flush(s: Scan): (tokens: seq<string>) {
    if s.token == "" then s.tokens else s.tokens + [s.token]
  }

  function Feed(s: Scan, c: char): (t: Scan) {
    var split := !s.quoted && IsSplit(c);
    var white := !s.quoted && c == ' ';
    var alnum := if s.quoted then s.lastAlnum else IsAlnum(c);
    var quote := c == '"';
    var cut := split || white || quote || s.lastSplit || s.lastAlnum != alnum;
    var token := if cut then "" else s.token;
    Scan(if cut then Flush(s) else s.tokens, if white || quote then token else token + [c],
      s.quoted != quote, split, alnum)
  }

  function FeedAll(s: Scan, text: string): (t: Scan) {
    if text == "" then s else Feed(FeedAll(s, text[..|text| - 1]), text[|text| - 1])
  }

  /** A space ends the last token. */
  function Tokens(text: string): (tokens: seq<string>) {
    FeedAll(START, text + " ").tokens
  }

  /** The first loop of compile. */
  method Tokenize(query: string) returns (tokens: seq<string>)
    ensures tokens == Tokens(query)
  {
    tokens := [];
    var token, quoted, lastSplit, lastAlnum := "", false, false, false;
    var i := 0;
    while i <= |query|
      invariant 0 <= i <= |query| + 1
      invariant Scan(tokens, token, quoted, lastSplit, lastAlnum) == FeedAll(START, (query + " ")[..i])
    {
      var c := if i < |query| then query[i] else ' ';
      assert (query + " ")[..i + 1][..i] == (query + " ")[..i] && (query + " ")[i] == c;
      i := i + 1;
      var split, alnum, white, quote := IsSplit(c), IsAlnum(c), c == ' ', c == '"';
      if quoted {
        white, split, alnum := false, false, lastAlnum;
      }
      if split || white || quote || lastSplit || lastAlnum != alnum {
        if token != "" {
          tokens := tokens + [token];
        }
        token := "";
      }
      if !(white || quote) {
        token := token + [c];
      }
      if quote {
        quoted := !quoted;
      }
      lastSplit, lastAlnum := split, alnum;
    }
    assert (query + " ")[..i] == query + " ";
  }

  predicate QuoteFree(t: string) {
    forall i :: 0 <= i < |t| ==> t[i] != '"'
  }

  /** No token is empty, and none contains a quote. */
  predicate Tokenlike(t: string) {
    t != "" && QuoteFree(t)
  }

  lemma {:induction false} TokensAreTokenlike(text: string)
    ensures var s := FeedAll(START, text);
      QuoteFree(s.token) && forall i :: 0 <= i < |s.tokens| ==> Tokenlike(s.tokens[i])
  {
    if text != "" {
      TokensAreTokenlike(text[..|text| - 1]);
    }
  }

  // ---------------------------------------------------------------- texts made of pieces

  datatype Piece = Space | Open | Close | Word(text: string) | Quoted(text: string)

  /** A run of alphanumeric characters, or one of others. */
  predicate IsWord(t: string) {
    t != "" &&
    ((forall i :: 0 <= i < |t| ==> IsAlnum(t[i])) ||
      (forall i :: 0 <= i < |t| ==> !IsAlnum(t[i]) && !IsSplit(t[i]) && t[i] != ' ' && t[i] != '"'))
  }

  function Spell(p: Piece): (t: string) {
    match p
    case Space => " "
    case Open => "("
    case Close => ")"
    case Word(t) => t
    case Quoted(t) => "\"" + t + "\""
  }

  function TokensOf(p: Piece): (tokens: seq<string>) {
    match p
    case Space => []
    case Open => ["("]
    case Close => [")"]
    case Word(t) => [t]
    case Quoted(t) => if t == "" then [] else [t]
  }

  function Text(ps: seq<Piece>): (t: string) {
    if ps == [] then "" else Text(ps[..|ps| - 1]) + Spell(ps[|ps| - 1])
  }

  function AllTokens(ps: seq<Piece>): (tokens: seq<string>) {
    if ps == [] then [] else AllTokens(ps[..|ps| - 1]) + TokensOf(ps[|ps| - 1])
  }

  predicate PieceOk(p: Piece) {
    (p.Word? ==> IsWord(p.text)) && (p.Quoted? ==> QuoteFree(p.text))
  }

  /** Words are kept apart by something else. */
  predicate Spaced(ps: seq<Piece>) {
    (forall i :: 0 <= i < |ps| ==> PieceOk(ps[i])) && (forall i :: 0 < i < |ps| ==> !(ps[i - 1].Word? && ps[i].Word?))
  }

  lemma {:induction false} FeedAppend(s: Scan, a: string, b: string)
    ensures FeedAll(s, a + b) == FeedAll(FeedAll(s, a), b)
    decreases |b|
  {
    if b == "" {
      assert a + b == a;
    } else {
      assert (a + b)[..|a + b| - 1] == a + b[..|b| - 1];
      FeedAppend(s, a, b[..|b| - 1]);
    }
  }

  /** Nothing that comes next is added to the current token. */
  predicate Fresh(s: Scan) {
    !s.quoted && (s.token == "" || s.lastSplit)
  }

  lemma FeedFirst(s: Scan, c: char)
    requires Fresh(s) && !IsSplit(c) && c != ' ' && c != '"'
    ensures Feed(s, c) == Scan(Flush(s), [c], false, false, IsAlnum(c))
  {
    assert "" + [c] == [c];
  }

  lemma WordPrefix(w: string)
    requires IsWord(w)
    ensures w != "" && var c := w[|w| - 1]; !IsSplit(c) && c != ' ' && c != '"' && IsAlnum(c) == IsAlnum(w[0])
    ensures |w| > 1 ==> IsWord(w[..|w| - 1])
  {
  }

  lemma {:induction false} FeedWord(s: Scan, w: string)
    requires Fresh(s) && IsWord(w)
    ensures FeedAll(s, w) == Scan(Flush(s), w, false, false, IsAlnum(w[0]))
    decreases |w|
  {
    hide IsWord, Feed, Flush;
    WordPrefix(w);
    var v, c := w[..|w| - 1], w[|w| - 1];
    if v == "" {
      assert FeedAll(s, v) == s;
      FeedFirst(s, c);
      assert w == [c];
    } else {
      FeedWord(s, v);
      FeedNext(Flush(s), v, c);
      assert v + [c] == w;
    }
  }

  lemma FeedNext(tokens: seq<string>, v: string, c: char)
    requires v != "" && !IsSplit(c) && c != ' ' && c != '"'
    ensures var s := Scan(tokens, v, false, false, IsAlnum(c)); Feed(s, c) == s.(token := v + [c])
  {
  }

  lemma {:induction false} FeedInQuotes(s: Scan, v: string)
    requires s.quoted && !s.lastSplit && QuoteFree(v)
    ensures FeedAll(s, v) == s.(token := s.token + v)
    decreases |v|
  {
    if v == "" {
      assert s.token + v == s.token;
    } else {
      FeedInQuotes(s, v[..|v| - 1]);
      assert s.token + v[..|v| - 1] + [v[|v| - 1]] == s.token + v;
    }
  }

  lemma FeedOne(s: Scan, c: char)
    ensures FeedAll(s, [c]) == Feed(s, c)
  {
    assert [c][..0] == "";
  }

  lemma FeedQuoted(s: Scan, v: string)
    requires !s.quoted && QuoteFree(v)
    ensures var t := FeedAll(s, "\"" + v + "\""); Fresh(t) && Flush(t) == Flush(s) + TokensOf(Quoted(v))
  {
    var s1 := Feed(s, '"');
    FeedOne(s, '"');
    FeedAppend(s, "\"", v);
    FeedInQuotes(s1, v);
    FeedAppend(s, "\"" + v, "\"");
    FeedOne(s1.(token := s1.token + v), '"');
    assert s1.token + v == v;
  }

  lemma FeedSplit(s: Scan, c: char)
    requires !s.quoted && IsSplit(c)
    ensures var t := FeedAll(s, [c]); Fresh(t) && Flush(t) == Flush(s) + [[c]]
  {
    FeedOne(s, c);
    assert "" + [c] == [c];
  }

  lemma FeedPiece(s: Scan, p: Piece)
    requires !s.quoted && PieceOk(p) && (p.Word? ==> Fresh(s))
    ensures var t := FeedAll(s, Spell(p)); !t.quoted && Flush(t) == Flush(s) + TokensOf(p) && (!p.Word? ==> Fresh(t))
  {
    match p
    case Space => FeedOne(s, ' ');
    case Open => FeedSplit(s, '(');
    case Close => FeedSplit(s, ')');
    case Word(w) => FeedWord(s, w);
    case Quoted(v) => FeedQuoted(s, v);
  }

  lemma {:induction false} FeedPieces(ps: seq<Piece>)
    requires Spaced(ps)
    ensures var t := FeedAll(START, Text(ps));
      !t.quoted && Flush(t) == AllTokens(ps) && ((ps != [] && ps[|ps| - 1].Word?) || Fresh(t))
    decreases |ps|
  {
    if ps != [] {
      var qs, p := ps[..|ps| - 1], ps[|ps| - 1];
      FeedPieces(qs);
      FeedAppend(START, Text(qs), Spell(p));
      FeedPiece(FeedAll(START, Text(qs)), p);
    }
  }

  /** Any text made of well spaced pieces is cut into the tokens of its pieces. */
  lemma PiecesAreTokens(ps: seq<Piece>)
    requires Spaced(ps)
    ensures Tokens(Text(ps)) == AllTokens(ps)
  {
    FeedPieces(ps);
    FeedAppend(START, Text(ps), " ");
    FeedOne(FeedAll(START, Text(ps)), ' ');
  }

  /** Letters and digits are cut from other characters, and spaces and parentheses in quotes are not. */
  lemma OneCut()
    ensures Tokens("a=1") == ["a", "=", "1"]
  {
    hide Feed;
    assert "a=1" + " " == "a=1 " && "a=1 "[..3] == "a=1" && "a=1"[..2] == "a=" && "a="[..1] == "a" && "a"[..0] == "";
    assert FeedAll(START, "a") == Feed(START, 'a');
    assert FeedAll(START, "a=") == Feed(FeedAll(START, "a"), '=');
    assert FeedAll(START, "a=1") == Feed(FeedAll(START, "a="), '1');
    FeedsOneCut();
  }

  lemma FeedsOneCut()
    ensures Feed(START, 'a') == Scan([], "a", false, false, true)
    ensures Feed(Scan([], "a", false, false, true), '=') == Scan(["a"], "=", false, false, false)
    ensures Feed(Scan(["a"], "=", false, false, false), '1') == Scan(["a", "="], "1", false, false, true)
    ensures Feed(Scan(["a", "="], "1", false, false, true), ' ') == Scan(["a", "=", "1"], "", false, false, false)
  {
  }

  // ---------------------------------------------------------------- the FROM and ORDER clauses

  /** What is left of the tokens; no sort order after an ORDER without a known BY. */
  datatype Clauses = Clauses(tokens: seq<string>, sort: Option<Kind>, bouquet: string) | Missing

  /** Edit the tokens from position it on. A clause that ends before its operand reads past the end of the list. */
  function EditFrom(e: Clauses, it: nat): (r: Clauses)
    requires e.Clauses? && it <= |e.tokens|
    decreases |e.tokens| - it
  {
    var rest := e.tokens[it..];
    var kept := e.tokens[..it];
    if rest == [] then e
    else if rest[0] == "ORDER" then
      if |rest| > 1 && rest[1] == "BY" then
        if |rest| == 2 then Missing
        else EditFrom(Clauses(kept + rest[3..], DecodeType(rest[2]), e.bouquet), it)
      else EditFrom(Clauses(kept + rest[1..], None, e.bouquet), it)
    else if rest[0] == "FROM" then
      if |rest| == 1 then Missing
      else if rest[1] == "BOUQUET" then
        if |rest| == 2 then Missing
        else EditFrom(Clauses(kept + rest[3..], e.sort, rest[2]), it)
      else EditFrom(Clauses(kept + rest[2..], e.sort, e.bouquet), it)
    else EditFrom(e, it + 1)
  }

  function Edit(tokens: seq<string>): (r: Clauses) {
    EditFrom(Clauses(tokens, Some(Name), ""), 0)
  }

  function Erase(tokens: seq<string>, it: nat): (t: seq<string>)
    requires it < |tokens|
  {
    tokens[..it] + tokens[it + 1..]
  }

  /** Erasing at one place takes away the tokens from there on, one by one. */
  lemma Erased(tokens: seq<string>, it: nat)
    requires it < |tokens|
    ensures var kept, rest := tokens[..it], tokens[it..];
      && Erase(tokens, it) == kept + rest[1..]
      && (|rest| > 1 ==> Erase(kept + rest[1..], it) == kept + rest[2..] && (kept + rest[1..])[it] == rest[1])
      && (|rest| > 2 ==> Erase(kept + rest[2..], it) == kept + rest[3..] && (kept + rest[2..])[it] == rest[2])
  {
  }

  /** The second loop of compile: clauses are erased from the list while it is walked. */
  method EditTokens(input: seq<string>) returns (r: Clauses)
    ensures r == Edit(input)
  {
    hide Erase, DecodeType;
    var tokens, sort, bouquet := input, Some(Name), "";
    var it := 0;
    while it < |tokens|
      invariant 0 <= it <= |tokens|
      invariant EditFrom(Clauses(tokens, sort, bouquet), it) == Edit(input)
      decreases |tokens| - it
    {
      ghost var before, kept := tokens, tokens[..it];
      Erased(before, it);
      if tokens[it] == "ORDER" {
        tokens := Erase(tokens, it);
        if it < |tokens| && tokens[it] == "BY" {
          tokens := Erase(tokens, it);
          if it == |tokens| {
            return Missing;
          }
          sort := DecodeType(tokens[it]);
          tokens := Erase(tokens, it);
        } else {
          sort := None;
        }
      } else if tokens[it] == "FROM" {
        tokens := Erase(tokens, it);
        if it == |tokens| {
          return Missing;
        }
        if tokens[it] == "BOUQUET" {
          tokens := Erase(tokens, it);
          if it == |tokens| {
            return Missing;
          }
          bouquet := tokens[it];
          tokens := Erase(tokens, it);
        } else {
          tokens := Erase(tokens, it);
        }
      } else {
        it := it + 1;
      }
    }
    return Clauses(tokens, sort, bouquet);
  }

  predicate IsClause(t: string) {
    t == "ORDER" || t == "FROM"
  }

  ghost predicate AllIn(tokens: seq<string>, all: seq<string>) {
    forall i :: 0 <= i < |tokens| ==> tokens[i] in all
  }

  ghost predicate NoClause(tokens: seq<string>) {
    forall i :: 0 <= i < |tokens| ==> !IsClause(tokens[i])
  }

  /** What is left has no clause any more, and everything in the result was a token before. */
  lemma {:induction false} EditLeavesNoClause(e: Clauses, it: nat, all: seq<string>)
    requires e.Clauses? && it <= |e.tokens| && AllIn(e.tokens, all) && NoClause(e.tokens[..it])
    requires e.bouquet != "" ==> e.bouquet in all
    ensures var r := EditFrom(e, it);
      r.Clauses? ==> AllIn(r.tokens, all) && NoClause(r.tokens) && (r.bouquet != "" ==> r.bouquet in all)
    decreases |e.tokens| - it
  {
    hide DecodeType, KindName;
    var rest, kept := e.tokens[it..], e.tokens[..it];
    if rest == [] {
      assert kept == e.tokens;
    } else if rest[0] == "ORDER" {
      if |rest| > 1 && rest[1] == "BY" {
        if |rest| > 2 {
          EditLeavesNoClause(Clauses(kept + rest[3..], DecodeType(rest[2]), e.bouquet), it, all);
        }
      } else {
        EditLeavesNoClause(Clauses(kept + rest[1..], None, e.bouquet), it, all);
      }
    } else if rest[0] == "FROM" {
      if |rest| > 1 {
        if rest[1] == "BOUQUET" {
          if |rest| > 2 {
            EditLeavesNoClause(Clauses(kept + rest[3..], e.sort, rest[2]), it, all);
          }
        } else {
          EditLeavesNoClause(Clauses(kept + rest[2..], e.sort, e.bouquet), it, all);
        }
      }
    } else {
      assert rest[0] == e.tokens[it] && !IsClause(e.tokens[it]);
      assert forall i :: 0 <= i < it ==> e.tokens[..it + 1][i] == kept[i];
      EditLeavesNoClause(e, it + 1, all);
    }
  }

  /** Tokens that are no clauses are passed over. */
  lemma {:induction false} EditPasses(front: seq<string>, rest: seq<string>, sort: Option<Kind>, bouquet: string,
      it: nat)
    requires it <= |front| && NoClause(front)
    ensures EditFrom(Clauses(front + rest, sort, bouquet), it) ==
      EditFrom(Clauses(front + rest, sort, bouquet), |front|)
    decreases |front| - it
  {
    if it < |front| {
      assert (front + rest)[it..][0] == front[it];
      EditPasses(front, rest, sort, bouquet, it + 1);
    }
  }

  // ---------------------------------------------------------------- expressions

  /** A query tree. Null is a missing operand: an empty pair of parentheses or nothing after an operator. */
  datatype Query<C> =
    | Null
    | Any
    | Compare(kind: Kind, inverse: bool, text: string, num: int, channel: Option<C>)
    | And(p1: Query<C>, p2: Query<C>)
    | Or(p1: Query<C>, p2: Query<C>)

  /** RESULT: the tree, or an error code. */
  datatype Parsed<C> = Good(query: Query<C>) | Bad(code: int)

  predicate IsSpace(c: char) {
    c == ' ' || '\t' <= c <= '\r'
  }

  function Digits(t: string, n: nat): (m: nat) {
    if t == "" || !('0' <= t[0] <= '9') then n else Digits(t[1..], 10 * n + (t[0] as int - '0' as int))
  }

  /** atoi */
  function Atoi(t: string): (n: int) {
    if t == "" then 0
    else if IsSpace(t[0]) then Atoi(t[1..])
    else if t[0] == '-' then 0 - Digits(t[1..], 0)
    else if t[0] == '+' then Digits(t[1..], 0)
    else Digits(t, 0)
  }

  function Comparison<C>(kind: Kind, inverse: bool, val: string, scan: string -> C): (q: Query<C>) {
    if kind == ChannelId then Compare(kind, inverse, val, 0, Some(scan(val)))
    else Compare(kind, inverse, val, Atoi(val), None)
  }

  /** Index of the first closing parenthesis. */
  function FirstClose(tokens: seq<string>): (k: nat)
    ensures k <= |tokens| && (forall i :: 0 <= i < k ==> tokens[i] != ")") && (k < |tokens| ==> tokens[k] == ")")
  {
    if tokens == [] || tokens[0] == ")" then 0 else 1 + FirstClose(tokens[1..])
  }

  function Parse<C>(tokens: seq<string>, scan: string -> C): (r: Parsed<C>)
    decreases |tokens|
  {
    if tokens == [] then Good(Null)
    else if tokens[0] == "(" then
      var k := FirstClose(tokens);
      if k == |tokens| then Bad(-1)
      else
        var first := Parse(tokens[1..k], scan);
        if first.Bad? || k + 1 == |tokens| then first
        else if tokens[k + 1] != "||" && tokens[k + 1] != "&&" then Bad(1)
        else
          var second := Parse(tokens[k + 2..], scan);
          if second.Bad? then second
          else if tokens[k + 1] == "||" then Good(Or(first.query, second.query))
          else Good(And(first.query, second.query))
    else if |tokens| != 3 || DecodeType(tokens[0]).None? || (tokens[1] != "==" && tokens[1] != "!=") then Bad(1)
    else Good(Comparison(DecodeType(tokens[0]).value, tokens[1] == "!=", tokens[2], scan))
  }

  /** parseExpression */
  method ParseExpression<C>(tokens: seq<string>, scan: string -> C) returns (r: Parsed<C>)
    ensures r == Parse(tokens, scan)
    decreases |tokens|
  {
    hide DecodeType, KindName, Atoi;
    if tokens == [] {
      return Good(Null);
    }
    if tokens[0] == "(" {
      var endOfExp := 0;
      while endOfExp < |tokens| && tokens[endOfExp] != ")"
        invariant 0 <= endOfExp <= |tokens| && FirstClose(tokens) == endOfExp + FirstClose(tokens[endOfExp..])
      {
        endOfExp := endOfExp + 1;
      }
      if endOfExp == |tokens| {
        return Bad(-1);
      }
      r := ParseExpression(tokens[1..endOfExp], scan);
      if r.Bad? || endOfExp + 1 == |tokens| {
        return;
      }
      var op := tokens[endOfExp + 1];
      if op != "||" && op != "&&" {
        return Bad(1);
      }
      var second := ParseExpression(tokens[endOfExp + 2..], scan);
      if second.Bad? {
        return second;
      }
      return Good(if op == "||" then Or(r.query, second.query) else And(r.query, second.query));
    }
    var type_, op, val := "", "", "";
    var cnt := 0;
    while cnt < |tokens|
      invariant 0 <= cnt <= |tokens| && cnt <= 3
      invariant (cnt > 0 ==> type_ == tokens[0]) && (cnt > 1 ==> op == tokens[1]) && (cnt > 2 ==> val == tokens[2])
    {
      match cnt {
        case 0 => type_ := tokens[cnt];
        case 1 => op := tokens[cnt];
        case 2 => val := tokens[cnt];
        case _ => return Bad(1);
      }
      cnt := cnt + 1;
    }
    if cnt != 3 {
      return Bad(1);
    }
    var kind := DecodeType(type_);
    if kind.None? {
      return Bad(1);
    }
    if op != "==" && op != "!=" {
      return Bad(1);
    }
    return Good(Comparison(kind.value, op == "!=", val, scan));
  }

  /** Three words are a comparison exactly if the first names a kind and the second is == or !=; nothing else is one. */
  lemma ComparisonsParse<C>(tokens: seq<string>, scan: string -> C)
    requires tokens != [] && tokens[0] != "("
    ensures var r := Parse(tokens, scan);
      if |tokens| == 3 && (exists k :: KindName(k) == tokens[0]) && (tokens[1] == "==" || tokens[1] == "!=") then
        exists k :: KindName(k) == tokens[0] && r == Good(
          Compare(k, tokens[1] == "!=", tokens[2], if k == ChannelId then 0 else Atoi(tokens[2]),
            if k == ChannelId then Some(scan(tokens[2])) else None))
      else r == Bad(1)
  {
    var kind := DecodeType(tokens[0]);
    assert kind.Some? ==> KindName(kind.value) == tokens[0];
  }

  /** A parenthesis that is not closed is an error. */
  lemma UnclosedParses<C>(tokens: seq<string>, scan: string -> C)
    requires tokens != [] && tokens[0] == "(" && ")" !in tokens
    ensures Parse(tokens, scan) == Bad(-1)
  {
    forall i | 0 <= i < |tokens| ensures tokens[i] != ")" {
      assert tokens[i] in tokens;
    }
  }

  /** The first parenthesis is closed by the first closing one, and only && or || may follow. */
  lemma ClosedParses<C>(tokens: seq<string>, k: nat, scan: string -> C)
    requires tokens != [] && tokens[0] == "(" && k < |tokens| && tokens[k] == ")" && ")" !in tokens[..k]
    ensures var first := Parse(tokens[1..k], scan);
      && (first.Bad? || k + 1 == |tokens| ==> Parse(tokens, scan) == first)
      && (first.Good? && k + 1 < |tokens| && tokens[k + 1] != "&&" && tokens[k + 1] != "||" ==>
            Parse(tokens, scan) == Bad(1))
  {
    forall i | 0 <= i < k ensures tokens[i] != ")" {
      assert tokens[..k][i] == tokens[i];
    }
    var f := FirstClose(tokens);
    assert f == k;
  }

  /** compile: a tree with its sort order and bouquet, an error code, or a read past the end of the tokens. */
  datatype Outcome<C> = Compiled(query: Query<C>, sort: Kind, bouquet: string) | Rejected(code: int) | Undefined

  function CompileTokens<C>(tokens: seq<string>, scan: string -> C): (r: Outcome<C>) {
    match Edit(tokens)
    case Missing => Undefined
    case Clauses(left, sort, bouquet) =>
      if sort.None? then Rejected(-1)
      else match Parse(left, scan)
        case Bad(code) => Rejected(code)
        case Good(q) => Compiled(if q.Null? then Any else q, sort.value, bouquet)
  }

  method Compile<C>(query: string, scan: string -> C) returns (r: Outcome<C>)
    ensures r == CompileTokens(Tokens(query), scan)
  {
    var tokens := Tokenize(query);
    var e := EditTokens(tokens);
    if e.Missing? {
      return Undefined;
    }
    if e.sort.None? {
      return Rejected(-1);
    }
    var p := ParseExpression(e.tokens, scan);
    if p.Bad? {
      return Rejected(p.code);
    }
    return Compiled(if p.query.Null? then Any else p.query, e.sort.value, e.bouquet);
  }

  /**
   Clauses that are cut short or unknown, behind tokens without clauses: an ORDER without BY, or by no kind, rejects the
   query; what FROM is followed by is dropped; and a clause that ends before its operand reads past the end.
   */
  lemma BadClauses<C>(front: seq<string>, w: string, scan: string -> C)
    requires NoClause(front)
    ensures CompileTokens(front + ["ORDER"], scan) == Rejected(-1)
    ensures (forall k :: KindName(k) != w) ==> CompileTokens(front + ["ORDER", "BY", w], scan) == Rejected(-1)
    ensures CompileTokens(front + ["ORDER", "BY"], scan) == Undefined
    ensures CompileTokens(front + ["FROM"], scan) == Undefined
    ensures CompileTokens(front + ["FROM", "BOUQUET"], scan) == Undefined
    ensures w != "BOUQUET" ==> CompileTokens(front + ["FROM", w], scan) == CompileTokens(front, scan)
  {
    LastClause(front, ["ORDER"]);
    LastClause(front, ["ORDER", "BY", w]);
    LastClause(front, ["ORDER", "BY"]);
    LastClause(front, ["FROM"]);
    LastClause(front, ["FROM", "BOUQUET"]);
    LastClause(front, ["FROM", w]);
    LastClause(front, []);
  }

  lemma LastClause(front: seq<string>, rest: seq<string>)
    requires NoClause(front)
    ensures Edit(front + rest) == EditFrom(Clauses(front + rest, Some(Name), ""), |front|)
    ensures (front + rest)[|front|..] == rest && (front + rest)[..|front|] == front
    ensures front + [] == front
  {
    EditPasses(front, rest, Some(Name), "", 0);
  }

  lemma EmptyQuery<C>(scan: string -> C)
    ensures CompileTokens([], scan) == Compiled(Any, Name, "")
  {
  }

  // ---------------------------------------------------------------- printed queries

  /** A value, with quotes around it or without. */
  datatype Operand = InQuotes(text: string) | Plain(text: string)

  datatype Atom = Atom(kind: Kind, differs: bool, value: Operand)

  /** Comparisons in parentheses, joined right-nested. */
  datatype Expression = Single(atom: Atom) | Both(atom: Atom, rest: Expression) | Either(atom: Atom, rest: Expression)

  datatype Source = Everywhere | InBouquet(name: string) | Satellites | Providers

  /** A complete query text. */
  datatype Request = Request(expression: Expression, source: Source, order: Option<Kind>)

  function OperandPiece(v: Operand): (p: Piece) {
    match v
    case InQuotes(t) => Quoted(t)
    case Plain(t) => Word(t)
  }

  function AtomPieces(a: Atom): (ps: seq<Piece>) {
    [Open, Word(KindName(a.kind)), Space, Word(if a.differs then "!=" else "=="), Space, OperandPiece(a.value), Close]
  }

  function ExpressionPieces(e: Expression): (ps: seq<Piece>)
    ensures ps != [] && ps[0] == Open && ps[|ps| - 1] == Close
  {
    match e
    case Single(a) => AtomPieces(a)
    case Both(a, rest) => AtomPieces(a) + [Space, Word("&&"), Space] + ExpressionPieces(rest)
    case Either(a, rest) => AtomPieces(a) + [Space, Word("||"), Space] + ExpressionPieces(rest)
  }

  function SourcePieces(s: Source): (ps: seq<Piece>) {
    match s
    case Everywhere => []
    case InBouquet(name) => [Space, Word("FROM"), Space, Word("BOUQUET"), Space, Quoted(name)]
    case Satellites => [Space, Word("FROM"), Space, Word("SATELLITES")]
    case Providers => [Space, Word("FROM"), Space, Word("PROVIDERS")]
  }

  function OrderPieces(order: Option<Kind>): (ps: seq<Piece>) {
    if order.None? then [] else [Space, Word("ORDER"), Space, Word("BY"), Space, Word(KindName(order.value))]
  }

  function Print(r: Request): (t: string) {
    Text(ExpressionPieces(r.expression) + SourcePieces(r.source) + OrderPieces(r.order))
  }

  /** The tree a printed expression stands for. */
  function TreeOf<C>(e: Expression, scan: string -> C): (q: Query<C>) {
    match e
    case Single(a) => Comparison(a.kind, a.differs, a.value.text, scan)
    case Both(a, rest) => And(Comparison(a.kind, a.differs, a.value.text, scan), TreeOf(rest, scan))
    case Either(a, rest) => Or(Comparison(a.kind, a.differs, a.value.text, scan), TreeOf(rest, scan))
  }

  function Meant<C>(r: Request, scan: string -> C): (o: Outcome<C>) {
    Compiled(TreeOf(r.expression, scan), if r.order.None? then Name else r.order.value,
      if r.source.InBouquet? then r.source.name else "")
  }

  /** Values without quotes are single words. */
  predicate Printable(e: Expression) {
    (e.atom.value.Plain? ==> IsWord(e.atom.value.text)) && (!e.Single? ==> Printable(e.rest))
  }

  /** All values are such tokens. */
  predicate Values(e: Expression, ok: string -> bool) {
    ok(e.atom.value.text) && (!e.Single? ==> Values(e.rest, ok))
  }

  /** A token that survives the removal of the clauses. */
  predicate Kept(t: string) {
    Tokenlike(t) && !IsClause(t)
  }

  /** What a value has to be for a printed query to be understood. */
  predicate Understood(t: string) {
    Kept(t) && t != ")"
  }

  predicate RequestUnderstood(r: Request) {
    Values(r.expression, Understood) && (r.source.InBouquet? ==> Tokenlike(r.source.name))
  }

  // ---------------------------------------------------------------- printed queries are cut into the right tokens

  function ExpressionTokens(e: Expression): (tokens: seq<string>)
    ensures |tokens| >= 5
  {
    var op := if e.atom.differs then "!=" else "==";
    var atom := ["(", KindName(e.atom.kind), op, e.atom.value.text, ")"];
    match e
    case Single(_) => atom
    case Both(_, rest) => atom + ["&&"] + ExpressionTokens(rest)
    case Either(_, rest) => atom + ["||"] + ExpressionTokens(rest)
  }

  function SourceTokens(s: Source): (tokens: seq<string>) {
    match s
    case Everywhere => []
    case InBouquet(name) => ["FROM", "BOUQUET"] + if name == "" then [] else [name]
    case Satellites => ["FROM", "SATELLITES"]
    case Providers => ["FROM", "PROVIDERS"]
  }

  function OrderTokens(order: Option<Kind>): (tokens: seq<string>) {
    if order.None? then [] else ["ORDER", "BY", KindName(order.value)]
  }

  lemma {:induction false} AllTokensAppend(a: seq<Piece>, b: seq<Piece>)
    ensures AllTokens(a + b) == AllTokens(a) + AllTokens(b)
    decreases |b|
  {
    if b == [] {
      assert a + b == a;
    } else {
      var front, last := b[..|b| - 1], b[|b| - 1];
      AllTokensAppend(a, front);
      assert AllTokens(a + b) == AllTokens(a + front) + TokensOf(last) by {
        assert (a + b)[..|a + b| - 1] == a + front && (a + b)[|a + b| - 1] == last;
      }
      Associative(AllTokens(a), AllTokens(front), TokensOf(last));
    }
  }

  lemma {:induction false} AllTokensCons(p: Piece, b: seq<Piece>)
    ensures AllTokens([p] + b) == TokensOf(p) + AllTokens(b)
  {
    AllTokensAppend([p], b);
    assert [p][..0] == [];
  }

  lemma AtomTokens(a: Atom)
    requires a.value.text != ""
    ensures AllTokens(AtomPieces(a)) == ["(", KindName(a.kind), if a.differs then "!=" else "==", a.value.text, ")"]
  {
    var op := Word(if a.differs then "!=" else "==");
    var value := [OperandPiece(a.value), Close];
    AllTokensOfTwo(OperandPiece(a.value), Close, []);
    AllTokensOfTwo(op, Space, value);
    AllTokensOfTwo(Word(KindName(a.kind)), Space, [op, Space] + value);
    AllTokensCons(Open, [Word(KindName(a.kind)), Space] + ([op, Space] + value));
    assert AtomPieces(a) == [Open] + ([Word(KindName(a.kind)), Space] + ([op, Space] + value));
    assert value == value + [];
  }

  lemma AllTokensOfTwo(p: Piece, q: Piece, b: seq<Piece>)
    ensures AllTokens([p, q] + b) == TokensOf(p) + (TokensOf(q) + AllTokens(b))
  {
    hide AllTokens, TokensOf;
    AllTokensCons(p, [q] + b);
    AllTokensCons(q, b);
    assert [p, q] + b == [p] + ([q] + b);
  }

  lemma {:induction false} ExpressionIsTokens(e: Expression)
    requires Values(e, Tokenlike)
    ensures AllTokens(ExpressionPieces(e)) == ExpressionTokens(e)
  {
    AtomTokens(e.atom);
    if !e.Single? {
      ExpressionIsTokens(e.rest);
      JoinedTokens(AtomPieces(e.atom), if e.Both? then "&&" else "||", ExpressionPieces(e.rest));
    }
  }

  lemma JoinedTokens(atom: seq<Piece>, op: string, rest: seq<Piece>)
    ensures AllTokens(atom + [Space, Word(op), Space] + rest) == AllTokens(atom) + [op] + AllTokens(rest)
  {
    AllTokensAppend(atom + [Space, Word(op), Space], rest);
    AllTokensAppend(atom, [Space, Word(op), Space]);
    OperatorTokens(op);
  }

  lemma OperatorTokens(op: string)
    ensures AllTokens([Space, Word(op), Space]) == [op]
  {
    AllTokensOfTwo(Space, Word(op), [Space]);
    AllTokensOfOne(Space);
    assert [Space, Word(op)] + [Space] == [Space, Word(op), Space];
  }

  lemma AllTokensOfOne(p: Piece)
    ensures AllTokens([p]) == TokensOf(p)
  {
    assert [p][..0] == [];
  }

  /** The tokens of a keyword clause. */
  lemma ClauseTokens(w: string, v: string, rest: Piece)
    ensures AllTokens([Space, Word(w), Space, Word(v), Space, rest]) == [w, v] + TokensOf(rest)
  {
    hide AllTokens;
    var tail := [Space, rest];
    AllTokensOfTwo(Space, Word(w), [Space, Word(v)] + tail);
    AllTokensOfTwo(Space, Word(v), tail);
    AllTokensCons(Space, [rest]);
    AllTokensOfOne(rest);
    assert tail == [Space] + [rest];
    assert [Space, Word(w), Space, Word(v), Space, rest] == [Space, Word(w)] + ([Space, Word(v)] + tail);
  }

  lemma SourceIsTokens(s: Source)
    ensures AllTokens(SourcePieces(s)) == SourceTokens(s)
  {
    if s.InBouquet? {
      ClauseTokens("FROM", "BOUQUET", Quoted(s.name));
    } else if !s.Everywhere? {
      var w := if s.Satellites? then "SATELLITES" else "PROVIDERS";
      AllTokensOfTwo(Space, Word("FROM"), [Space, Word(w)]);
      AllTokensCons(Space, [Word(w)]);
      AllTokensOfOne(Word(w));
      assert [Space, Word(w)] == [Space] + [Word(w)];
      assert SourcePieces(s) == [Space, Word("FROM")] + [Space, Word(w)];
    }
  }

  lemma OrderIsTokens(order: Option<Kind>)
    ensures AllTokens(OrderPieces(order)) == OrderTokens(order)
  {
    if order.Some? {
      ClauseTokens("ORDER", "BY", Word(KindName(order.value)));
    }
  }

  predicate Joins(a: seq<Piece>, b: seq<Piece>) {
    a == [] || b == [] || !(a[|a| - 1].Word? && b[0].Word?)
  }

  lemma SpacedAppend(a: seq<Piece>, b: seq<Piece>)
    requires Spaced(a) && Spaced(b) && Joins(a, b)
    ensures Spaced(a + b)
  {
  }

  lemma KindNameIsWord(k: Kind)
    ensures var t := KindName(k); t != "" && 'a' <= t[0] <= 'z' && forall i :: 0 <= i < |t| ==> IsAlnum(t[i])
  {
    match k
    case Name =>
    case Provider =>
    case Type =>
    case Bouquet =>
    case SatellitePosition =>
    case ChannelId =>
    case Flags =>
  }

  lemma AtomIsSpaced(a: Atom)
    requires QuoteFree(a.value.text) && (a.value.Plain? ==> IsWord(a.value.text))
    ensures Spaced(AtomPieces(a))
  {
    var op := if a.differs then "!=" else "==";
    assert |op| == 2 && (op[0] == '!' || op[0] == '=') && op[1] == '=';
    KindNameIsWord(a.kind);
    assert PieceOk(Word(op)) && PieceOk(Word(KindName(a.kind))) && PieceOk(OperandPiece(a.value));
  }

  lemma {:induction false} ExpressionIsSpaced(e: Expression)
    requires Values(e, Tokenlike) && Printable(e)
    ensures Spaced(ExpressionPieces(e))
  {
    AtomIsSpaced(e.atom);
    if !e.Single? {
      var op := Word(if e.Both? then "&&" else "||");
      assert IsWord(op.text);
      ExpressionIsSpaced(e.rest);
      SpacedAppend(AtomPieces(e.atom), [Space, op, Space]);
      SpacedAppend(AtomPieces(e.atom) + [Space, op, Space], ExpressionPieces(e.rest));
    }
  }

  lemma SourceIsSpaced(s: Source)
    requires s.InBouquet? ==> QuoteFree(s.name)
    ensures Spaced(SourcePieces(s))
  {
    match s
    case Everywhere =>
    case InBouquet(name) => assert IsWord("FROM") && IsWord("BOUQUET");
    case Satellites => assert IsWord("FROM") && IsWord("SATELLITES");
    case Providers => assert IsWord("FROM") && IsWord("PROVIDERS");
  }

  lemma OrderIsSpaced(order: Option<Kind>)
    ensures Spaced(OrderPieces(order))
  {
    if order.Some? {
      KindNameIsWord(order.value);
      assert IsWord("ORDER") && IsWord("BY") && IsWord(KindName(order.value));
    }
  }

  function Pieces(r: Request): (ps: seq<Piece>) {
    ExpressionPieces(r.expression) + SourcePieces(r.source) + OrderPieces(r.order)
  }

  lemma PrintedIsSpaced(r: Request)
    requires Values(r.expression, Tokenlike) && Printable(r.expression)
      && (r.source.InBouquet? ==> QuoteFree(r.source.name))
    ensures Spaced(Pieces(r))
  {
    ExpressionIsSpaced(r.expression);
    SourceIsSpaced(r.source);
    OrderIsSpaced(r.order);
    SpacedAppend(ExpressionPieces(r.expression), SourcePieces(r.source));
    SpacedAppend(ExpressionPieces(r.expression) + SourcePieces(r.source), OrderPieces(r.order));
  }

  /** A printed query is cut into exactly the tokens it was printed from. */
  lemma PrintedTokens(r: Request)
    requires Values(r.expression, Tokenlike) && Printable(r.expression)
      && (r.source.InBouquet? ==> QuoteFree(r.source.name))
    ensures Tokens(Print(r)) == ExpressionTokens(r.expression) + (SourceTokens(r.source) + OrderTokens(r.order))
  {
    var a, b, c := ExpressionPieces(r.expression), SourcePieces(r.source), OrderPieces(r.order);
    PrintedIsSpaced(r);
    PiecesAreTokens(Pieces(r));
    AllTokensAppend(a + b, c);
    AllTokensAppend(a, b);
    ExpressionIsTokens(r.expression);
    SourceIsTokens(r.source);
    OrderIsTokens(r.order);
    Associative(AllTokens(a), AllTokens(b), AllTokens(c));
  }

  // ---------------------------------------------------------------- and parsed into the right tree

  lemma {:induction false} ExpressionHasNoClause(e: Expression)
    requires Values(e, Kept)
    ensures NoClause(ExpressionTokens(e))
  {
    KindNameIsWord(e.atom.kind);
    if !e.Single? {
      ExpressionHasNoClause(e.rest);
    }
  }

  /** The clauses of a printed query are recognized and removed. */
  lemma EditsPrinted(x: seq<string>, s: Source, order: Option<Kind>)
    requires NoClause(x) && s != InBouquet("")
    ensures Edit(x + (SourceTokens(s) + OrderTokens(order))) ==
      Clauses(x, if order.None? then Some(Name) else order, if s.InBouquet? then s.name else "")
  {
    var b, c, bouquet := SourceTokens(s), OrderTokens(order), if s.InBouquet? then s.name else "";
    EditPasses(x, b + c, Some(Name), "", 0);
    assert (x + (b + c))[|x|..] == b + c && (x + (b + c))[..|x|] == x;
    assert (b + c)[|b|..] == c && b + c == if s.Everywhere? then c else b + c;
    assert EditFrom(Clauses(x + (b + c), Some(Name), ""), |x|) == EditFrom(Clauses(x + c, Some(Name), bouquet), |x|);
    EditsOrder(x, order, bouquet);
  }

  /** An empty bouquet name is not recognized: the name is taken from what follows. */
  lemma EmptyBouquetIsNotRead(x: seq<string>, order: Option<Kind>)
    requires NoClause(x)
    ensures var e := Edit(x + (SourceTokens(InBouquet("")) + OrderTokens(order))); e.Missing? || e.bouquet != ""
  {
    var b, c := ["FROM", "BOUQUET"], OrderTokens(order);
    assert SourceTokens(InBouquet("")) == b;
    EditPasses(x, b + c, Some(Name), "", 0);
    assert (x + (b + c))[|x|..] == b + c && (x + (b + c))[..|x|] == x;
    if order.Some? {
      KindNameIsWord(order.value);
      assert (b + c)[3..] == ["BY", KindName(order.value)];
      var e := Clauses(x + ["BY", KindName(order.value)], Some(Name), "ORDER");
      assert EditFrom(Clauses(x + (b + c), Some(Name), ""), |x|) == EditFrom(e, |x|);
      EditKeepsBouquet(e, |x|);
    }
  }

  lemma EditsOrder(x: seq<string>, order: Option<Kind>, bouquet: string)
    ensures EditFrom(Clauses(x + OrderTokens(order), Some(Name), bouquet), |x|) ==
      Clauses(x, if order.None? then Some(Name) else order, bouquet)
  {
    var c := OrderTokens(order);
    assert (x + c)[|x|..] == c && (x + c)[..|x|] == x;
    if order.Some? {
      EditsLastOrder(Clauses(x + c, Some(Name), bouquet), |x|);
      DecodesItsName(order.value);
    } else {
      assert x + c == x;
    }
  }

  lemma EditsLastOrder(e: Clauses, it: nat)
    requires e.Clauses? && it + 3 == |e.tokens| && e.tokens[it] == "ORDER" && e.tokens[it + 1] == "BY"
    ensures EditFrom(e, it) == Clauses(e.tokens[..it], DecodeType(e.tokens[it + 2]), e.bouquet)
  {
    assert e.tokens[it..][3..] == [] && e.tokens[..it] + [] == e.tokens[..it];
  }

  lemma {:induction false} EditKeepsBouquet(e: Clauses, it: nat)
    requires e.Clauses? && it <= |e.tokens| && e.bouquet != ""
    requires forall i :: it <= i < |e.tokens| ==> !IsClause(e.tokens[i])
    ensures EditFrom(e, it) == e
    decreases |e.tokens| - it
  {
    if it < |e.tokens| {
      assert e.tokens[it..][0] == e.tokens[it];
      EditKeepsBouquet(e, it + 1);
    }
  }

  lemma {:induction false} FirstCloseIs(tokens: seq<string>, k: nat)
    requires k < |tokens| && tokens[k] == ")" && forall i :: 0 <= i < k ==> tokens[i] != ")"
    ensures FirstClose(tokens) == k
    decreases k
  {
    if k > 0 {
      FirstCloseIs(tokens[1..], k - 1);
    }
  }

  /** A printed comparison is read up to its parenthesis, unless its value is one. */
  lemma ParsesAtom<C>(a: Atom, rest: seq<string>, scan: string -> C)
    requires Kept(a.value.text)
    ensures var tokens := ["(", KindName(a.kind), if a.differs then "!=" else "==", a.value.text, ")"] + rest;
      if a.value.text == ")" then Parse(tokens, scan) == Bad(1)
      else
        FirstClose(tokens) == 4
        && Parse(tokens[1..4], scan) == Good(Comparison(a.kind, a.differs, a.value.text, scan))
  {
    var op := if a.differs then "!=" else "==";
    var tokens := ["(", KindName(a.kind), op, a.value.text, ")"] + rest;
    KindNameIsWord(a.kind);
    if a.value.text == ")" {
      FirstCloseIs(tokens, 3);
      assert tokens[1..3] == [KindName(a.kind), op];
    } else {
      FirstCloseIs(tokens, 4);
      assert tokens[1..4] == [KindName(a.kind), op, a.value.text];
      DecodesItsName(a.kind);
    }
  }

  /** Printed expressions are parsed into their tree, unless a value is a closing parenthesis. */
  lemma {:induction false} ParsesPrinted<C>(e: Expression, scan: string -> C)
    requires Values(e, Kept)
    ensures Parse(ExpressionTokens(e), scan) == (if Values(e, Understood) then Good(TreeOf(e, scan)) else Bad(1))
  {
    if e.Single? {
      ParsesAtom(e.atom, [], scan);
      assert ExpressionTokens(e) == ExpressionTokens(e) + [];
    } else {
      ParsesPrinted(e.rest, scan);
      ParsesJoined(e, scan);
    }
  }

  lemma ParsesJoined<C>(e: Expression, scan: string -> C)
    requires Values(e, Kept) && !e.Single?
    requires Parse(ExpressionTokens(e.rest), scan) ==
      (if Values(e.rest, Understood) then Good(TreeOf(e.rest, scan)) else Bad(1))
    ensures Parse(ExpressionTokens(e), scan) == (if Values(e, Understood) then Good(TreeOf(e, scan)) else Bad(1))
  {
    var tokens, rest := ExpressionTokens(e), ExpressionTokens(e.rest);
    JoinedShape(e);
    ParsesAtom(e.atom, [Operator(e)] + rest, scan);
    if e.atom.value.text != ")" {
      ParsesOperator(tokens, 4, scan);
    }
  }

  function Operator(e: Expression): (op: string)
    requires !e.Single?
  {
    if e.Both? then "&&" else "||"
  }

  lemma JoinedShape(e: Expression)
    requires !e.Single?
    ensures var tokens, rest := ExpressionTokens(e), ExpressionTokens(e.rest);
      && |tokens| == 6 + |rest| && tokens[0] == "(" && tokens[5] == Operator(e) && tokens[6..] == rest
      && tokens == ["(", KindName(e.atom.kind), if e.atom.differs then "!=" else "==", e.atom.value.text, ")"]
        + ([Operator(e)] + rest)
  {
    Behind(["(", KindName(e.atom.kind), if e.atom.differs then "!=" else "==", e.atom.value.text, ")"], Operator(e),
      ExpressionTokens(e.rest));
  }

  lemma Behind(atom: seq<string>, op: string, rest: seq<string>)
    ensures var tokens := atom + [op] + rest;
      tokens == atom + ([op] + rest) && tokens[|atom|] == op && tokens[|atom| + 1..] == rest
  {
  }

  /** Behind the first closing parenthesis comes an operator and the other operand. */
  lemma ParsesOperator<C>(tokens: seq<string>, k: nat, scan: string -> C)
    requires k + 1 < |tokens| && tokens[0] == "(" && FirstClose(tokens) == k && k > 0 && Parse(tokens[1..k], scan).Good?
    requires tokens[k + 1] == "&&" || tokens[k + 1] == "||"
    ensures var first, second := Parse(tokens[1..k], scan), Parse(tokens[k + 2..], scan);
      Parse(tokens, scan) == if second.Bad? then second
        else if tokens[k + 1] == "||" then Good(Or(first.query, second.query)) else Good(And(first.query, second.query))
  {
  }

  /** All texts in a tree are such tokens. */
  predicate Texts<C>(q: Query<C>, ok: string -> bool) {
    match q
    case Compare(_, _, text, _, _) => ok(text)
    case And(a, b) => Texts(a, ok) && Texts(b, ok)
    case Or(a, b) => Texts(a, ok) && Texts(b, ok)
    case _ => true
  }

  lemma {:induction false} ParsedTextsAreTokens<C>(tokens: seq<string>, scan: string -> C, ok: string -> bool)
    requires forall i :: 0 <= i < |tokens| ==> ok(tokens[i])
    ensures var r := Parse(tokens, scan); r.Good? ==> Texts(r.query, ok)
    decreases |tokens|
  {
    if tokens != [] && tokens[0] == "(" {
      var k := FirstClose(tokens);
      if k < |tokens| {
        ParsedTextsAreTokens(tokens[1..k], scan, ok);
        if k + 1 < |tokens| {
          ParsedTextsAreTokens(tokens[k + 2..], scan, ok);
        }
      }
    }
  }

  lemma {:induction false} TextsOfTree<C>(e: Expression, scan: string -> C, ok: string -> bool)
    ensures Texts(TreeOf(e, scan), ok) == Values(e, ok)
  {
    if !e.Single? {
      TextsOfTree(e.rest, scan, ok);
    }
  }

  lemma {:induction false} ValuesWeaken(e: Expression, p: string -> bool, q: string -> bool)
    requires Values(e, p) && forall t :: p(t) ==> q(t)
    ensures Values(e, q)
  {
    if !e.Single? {
      ValuesWeaken(e.rest, p, q);
    }
  }

  /** What a query text can mean at all: its values and its bouquet are tokens. */
  lemma CompiledValuesAreTokens<C>(text: string, scan: string -> C)
    ensures var o := CompileTokens(Tokens(text), scan);
      o.Compiled? ==> Texts(o.query, Kept) && (o.bouquet != "" ==> Tokenlike(o.bouquet))
  {
    var tokens := Tokens(text);
    TokensAreTokenlike(text + " ");
    EditLeavesNoClause(Clauses(tokens, Some(Name), ""), 0, tokens);
    var e := Edit(tokens);
    if e.Clauses? {
      forall i | 0 <= i < |e.tokens|
        ensures Kept(e.tokens[i])
      {
        assert e.tokens[i] in tokens;
      }
      ParsedTextsAreTokens(e.tokens, scan, Kept);
    }
  }

  /** A printed query compiles to exactly what was meant if and only if its values can be understood. */
  lemma PrintedQueryCompiles<C>(r: Request, scan: string -> C)
    requires Printable(r.expression)
    ensures CompileTokens(Tokens(Print(r)), scan) == Meant(r, scan) <==> RequestUnderstood(r)
  {
    CompiledValuesAreTokens(Print(r), scan);
    TextsOfTree(r.expression, scan, Kept);
    if Values(r.expression, Understood) {
      ValuesWeaken(r.expression, Understood, Kept);
    }
    if Values(r.expression, Kept) && (r.source.InBouquet? ==> QuoteFree(r.source.name)) {
      KeptValuesCompile(r, scan);
    }
  }

  lemma KeptValuesCompile<C>(r: Request, scan: string -> C)
    requires Printable(r.expression) && Values(r.expression, Kept) && (r.source.InBouquet? ==> QuoteFree(r.source.name))
    ensures CompileTokens(Tokens(Print(r)), scan) == Meant(r, scan) <==>
      Values(r.expression, Understood) && r.source != InBouquet("")
  {
    ValuesWeaken(r.expression, Kept, Tokenlike);
    PrintedTokens(r);
    ExpressionHasNoClause(r.expression);
    if r.source == InBouquet("") {
      EmptyBouquetIsNotRead(ExpressionTokens(r.expression), r.order);
    } else {
      EditsPrinted(ExpressionTokens(r.expression), r.source, r.order);
      ParsesPrinted(r.expression, scan);
    }
  }

  /** One query word by word: the kinds, operators and clauses have these names. */
  lemma OneQuery()
    ensures
      var type1, nameX := Atom(Type, true, Plain("1")), Atom(Name, false, InQuotes("x y"));
      var r := Request(Both(nameX, Single(type1)), InBouquet("b"), Some(Provider));
      Tokens(Print(r)) == ["(", "name", "==", "x y", ")", "&&", "(", "type", "!=", "1", ")",
                           "FROM", "BOUQUET", "b", "ORDER", "BY", "provider"]
  {
    var type1, nameX := Atom(Type, true, Plain("1")), Atom(Name, false, InQuotes("x y"));
    var r := Request(Both(nameX, Single(type1)), InBouquet("b"), Some(Provider));
    hide Tokens, Print;
    PrintedTokens(r);
  }

  // ---------------------------------------------------------------- filtering services

  type uint32 = x: int | 0 <= x < 0x1_0000_0000

  /** What is known about a service and its reference. */
  datatype Service<C> = Service(sortName: string, provider: string, flags: bv32, serviceType: int,
                                originalNetwork: int, dvbNamespace: uint32, channel: C)

  const DISH_TV_TYPES: seq<int> := [128, 133, 137, 140, 144, 145, 150, 154, 160, 163, 164, 165, 166, 167, 168, 173, 174]

  predicate IsDishTv<C>(s: Service<C>) {
    0x1001 <= s.originalNetwork <= 0x100B && s.serviceType in DISH_TV_TYPES
  }

  /** An int as it is seen by the operators on bits. */
  function Bits32(num: int): (mask: bv32) {
    (num % 0x1_0000_0000) as bv32
  }

  predicate FlagsSet(flags: bv32, num: int) {
    flags & Bits32(num) == Bits32(num)
  }

  /** The bits of 6 hold that of 2, but not both of 3. */
  lemma FlagsMean()
    ensures FlagsSet(6, 2) && !FlagsSet(6, 3)
  {
    BitsOfTwo();
    BitsOfThree();
    hide Bits32;
  }

  lemma BitsOfTwo()
    ensures Bits32(2) == 2
  {
  }

  lemma BitsOfThree()
    ensures Bits32(3) == 3
  {
  }

  /** The networks 4097 to 4107, and their service types for television. */
  lemma DishMeans<C>(s: Service<C>)
    ensures IsDishTv(s) <==>
      && 4097 <= s.originalNetwork <= 4107
      && (s.serviceType == 128 || s.serviceType == 133 || s.serviceType == 137 || s.serviceType == 140
          || 144 <= s.serviceType <= 145 || s.serviceType == 150 || s.serviceType == 154 || s.serviceType == 160
          || 163 <= s.serviceType <= 168 || 173 <= s.serviceType <= 174)
  {
  }

  /** An operand is missing nowhere. */
  predicate Complete<C>(q: Query<C>) {
    match q
    case Null => false
    case And(a, b) => Complete(a) && Complete(b)
    case Or(a, b) => Complete(a) && Complete(b)
    case _ => true
  }

  /** checkFilter */
  predicate CheckFilter<C(==)>(s: Service<C>, q: Query<C>)
    requires Complete(q)
  {
    match q
    case Any => true
    case And(a, b) => CheckFilter(s, a) && CheckFilter(s, b)
    case Or(a, b) => CheckFilter(s, a) || CheckFilter(s, b)
    case Compare(kind, inverse, text, num, channel) =>
      if kind == Type && num == 1 && IsDishTv(s) then true
      else
        var res := match kind
          case Name => s.sortName == text
          case Provider => if text == "Unknown" && s.provider == "" then true else s.provider == text
          case Type => s.serviceType == num
          case Bouquet => false
          case SatellitePosition => s.dvbNamespace / 0x1_0000 == num % 0x1_0000_0000
          case ChannelId => Some(s.channel) == channel
          case Flags => FlagsSet(s.flags, num);
        if inverse then !res else res
  }

  /** A service has what a comparison asks for. On the networks of Dish, many types are television. */
  predicate Has<C(==)>(s: Service<C>, kind: Kind, value: string, scan: string -> C) {
    match kind
    case Name => s.sortName == value
    case Provider => s.provider == value || (s.provider == "" && value == "Unknown")
    case Type => s.serviceType == Atoi(value) || (Atoi(value) == 1 && IsDishTv(s))
    case Bouquet => false
    case SatellitePosition => s.dvbNamespace / 0x1_0000 == Atoi(value) % 0x1_0000_0000
    case ChannelId => s.channel == scan(value)
    case Flags => FlagsSet(s.flags, Atoi(value))
  }

  /** The one comparison that does not care whether it is negated. */
  predicate IgnoresNegation<C>(s: Service<C>, a: Atom) {
    a.kind == Type && Atoi(a.value.text) == 1 && IsDishTv(s)
  }

  predicate Matches<C(==)>(s: Service<C>, a: Atom, scan: string -> C) {
    Has(s, a.kind, a.value.text, scan) != a.differs || IgnoresNegation(s, a)
  }

  predicate Means<C(==)>(e: Expression, s: Service<C>, scan: string -> C) {
    match e
    case Single(a) => Matches(s, a, scan)
    case Both(a, rest) => Matches(s, a, scan) && Means(rest, s, scan)
    case Either(a, rest) => Matches(s, a, scan) || Means(rest, s, scan)
  }

  /**
   != is the negation of == exactly if the service is not a television service of Dish that is asked for by type 1.
   */
  lemma NegationNegates<C>(s: Service<C>, a: Atom, scan: string -> C)
    ensures Matches(s, a.(differs := !a.differs), scan) == !Matches(s, a, scan) <==> !IgnoresNegation(s, a)
  {
  }

  lemma ChecksAtom<C>(s: Service<C>, a: Atom, scan: string -> C)
    ensures CheckFilter(s, Comparison(a.kind, a.differs, a.value.text, scan)) <==> Matches(s, a, scan)
  {
  }

  lemma {:induction false} ChecksTree<C>(e: Expression, s: Service<C>, scan: string -> C)
    ensures Complete(TreeOf(e, scan)) && (CheckFilter(s, TreeOf(e, scan)) <==> Means(e, s, scan))
  {
    ChecksAtom(s, e.atom, scan);
    if !e.Single? {
      ChecksTree(e.rest, s, scan);
    }
  }

  /** The services a printed query lets through are those it means. */
  lemma PrintedQueryFilters<C>(r: Request, s: Service<C>, scan: string -> C)
    requires Printable(r.expression) && RequestUnderstood(r)
    ensures var o := CompileTokens(Tokens(Print(r)), scan);
      o.Compiled? && Complete(o.query) && (CheckFilter(s, o.query) <==> Means(r.expression, s, scan))
  {
    PrintedQueryCompiles(r, scan);
    ChecksTree(r.expression, s, scan);
  }

  // ---------------------------------------------------------------- numbers

  /** %d of a number that is not negative. */
  function Decimal(n: nat): (t: string)
    ensures t != "" && forall i :: 0 <= i < |t| ==> '0' <= t[i] <= '9'
  {
    if n < 10 then [('0' as int + n) as char] else Decimal(n / 10) + [('0' as int + n % 10) as char]
  }

  lemma {:induction false} DigitsAppend(t: string, c: char, n: nat)
    requires '0' <= c <= '9' && forall i :: 0 <= i < |t| ==> '0' <= t[i] <= '9'
    ensures Digits(t + [c], n) == 10 * Digits(t, n) + (c as int - '0' as int)
  {
    if t == "" {
      assert t + [c] == [c] && [c][1..] == "";
    } else {
      assert (t + [c])[1..] == t[1..] + [c];
      DigitsAppend(t[1..], c, 10 * n + (t[0] as int - '0' as int));
    }
  }

  lemma {:induction false} DigitsOfDecimal(n: nat)
    ensures Digits(Decimal(n), 0) == n
  {
    if n < 10 {
      assert Decimal(n)[1..] == "";
    } else {
      DigitsOfDecimal(n / 10);
      DigitsAppend(Decimal(n / 10), ('0' as int + n % 10) as char, 0);
    }
  }

  /** A printed number is one word, is understood, and is read back. */
  lemma NumbersAreUnderstood(n: nat)
    ensures IsWord(Decimal(n)) && Understood(Decimal(n)) && Atoi(Decimal(n)) == n
  {
    DigitsOfDecimal(n);
    assert '0' <= Decimal(n)[0] <= '9';
  }

  /** A query for a satellite position in front of another one. */
  function InFolder(n: nat, r: Request): (f: Request) {
    Request(Both(Atom(SatellitePosition, false, Plain(Decimal(n))), r.expression), r.source, r.order)
  }

  /**
   The folder of a satellite, (satellitePosition == n) && before a query, narrows it to the services at this
   position.
   */
  lemma SatelliteFolderNarrows<C>(n: nat, r: Request, s: Service<C>, scan: string -> C)
    requires n < 0x1_0000 && Printable(r.expression) && RequestUnderstood(r)
    ensures var o := CompileTokens(Tokens(Print(InFolder(n, r))), scan);
      o.Compiled? && Complete(o.query) &&
      (CheckFilter(s, o.query) <==> s.dvbNamespace / 0x1_0000 == n && Means(r.expression, s, scan))
  {
    NumbersAreUnderstood(n);
    PrintedQueryFilters(InFolder(n, r), s, scan);
    PositionMatches(n, s, scan);
  }

  lemma PositionMatches<C>(n: nat, s: Service<C>, scan: string -> C)
    requires n < 0x1_0000 && Atoi(Decimal(n)) == n
    ensures Matches(s, Atom(SatellitePosition, false, Plain(Decimal(n))), scan) <==> s.dvbNamespace / 0x1_0000 == n
  {
  }
}