/** The duplicate-key scanner, which walks the token stream of a JSON decoder. */
module JsonScan {
  import opened Prelude

  datatype Token = OpenObject | CloseObject | OpenArray | CloseArray | Text(text: string) | Scalar

  datatype Error = EndOfInput | InvalidKey | DuplicateKey | InvalidDelimiter

  /** What is left of the token stream, or why the scan stopped. */
  datatype Outcome = Accepted(rest: seq<Token>) | Rejected(error: Error)

  // ---------------------------------------------------------------- JSON values

  /** A JSON value (RFC 8259, section 3); numbers, booleans and null are scalars. */
  datatype Json = TextValue(text: string) | ScalarValue | ArrayValue(items: Items) | ObjectValue(members: Members)
  datatype Items = NoItems | Item(value: Json, rest: Items)
  datatype Members = NoMembers | Member(name: string, value: Json, rest: Members)

  function Tokens(v: Json): (ts: seq<Token>)
    ensures ts != [] && ts[0] != CloseObject && ts[0] != CloseArray
  {
    match v
    case TextValue(s) => [Text(s)]
    case ScalarValue => [Scalar]
    case ArrayValue(items) => [OpenArray] + ItemTokens(items) + [CloseArray]
    case ObjectValue(members) => [OpenObject] + MemberTokens(members) + [CloseObject]
  }

  function ItemTokens(items: Items): seq<Token> {
    match items
    case NoItems => []
    case Item(v, rest) => Tokens(v) + ItemTokens(rest)
  }

  function MemberTokens(members: Members): seq<Token> {
    match members
    case NoMembers => []
    case Member(name, v, rest) => [Text(name)] + Tokens(v) + MemberTokens(rest)
  }

  function Names(members: Members): seq<string> {
    match members
    case NoMembers => []
    case Member(name, _, rest) => [name] + Names(rest)
  }

  /** No object at any depth repeats a name (RFC 8259, section 4). */
  ghost predicate UniqueNames(v: Json) {
    match v
    case TextValue(_) => true
    case ScalarValue => true
    case ArrayValue(items) => ItemsUnique(items)
    case ObjectValue(members) => Distinct(Names(members)) && MembersUnique(members)
  }

  ghost predicate ItemsUnique(items: Items) {
    match items
    case NoItems => true
    case Item(v, rest) => UniqueNames(v) && ItemsUnique(rest)
  }

  ghost predicate MembersUnique(members: Members) {
    match members
    case NoMembers => true
    case Member(_, v, rest) => UniqueNames(v) && MembersUnique(rest)
  }

  // ---------------------------------------------------------------- the scan

  predicate More(ts: seq<Token>) {
    ts != [] && ts[0] != CloseObject && ts[0] != CloseArray
  }

  /** The closing token, whatever it is. */
  function Close(ts: seq<Token>): Outcome {
    if ts == [] then Rejected(EndOfInput) else Accepted(ts[1..])
  }

  function Scan(ts: seq<Token>): (o: Outcome)
    ensures o.Accepted? ==> |o.rest| < |ts|
    decreases |ts|, 0
  {
    if ts == [] then Rejected(EndOfInput)
    else match ts[0]
      case Text(_) => Accepted(ts[1..])
      case Scalar => Accepted(ts[1..])
      case OpenObject =>
        var inside := ScanMembers(ts[1..], {});
        if inside.Rejected? then inside else Close(inside.rest)
      case OpenArray =>
        var inside := ScanItems(ts[1..]);
        if inside.Rejected? then inside else Close(inside.rest)
      case _ => Rejected(InvalidDelimiter)
  }

  function ScanItems(ts: seq<Token>): (o: Outcome)
    ensures o.Accepted? ==> |o.rest| <= |ts|
    decreases |ts|, 1
  {
    if !More(ts) then Accepted(ts)
    else
      var first := Scan(ts);
      if first.Rejected? then first else ScanItems(first.rest)
  }

  function ScanMembers(ts: seq<Token>, keys: set<string>): (o: Outcome)
    ensures o.Accepted? ==> |o.rest| <= |ts|
    decreases |ts|, 1
  {
    if !More(ts) then Accepted(ts)
    else if !ts[0].Text? then Rejected(InvalidKey)
    else if ts[0].text in keys then Rejected(DuplicateKey)
    else
      var first := Scan(ts[1..]);
      if first.Rejected? then first else ScanMembers(first.rest, keys + {ts[0].text})
  }

  // ---------------------------------------------------------------- main result

  function Verdict(unique: bool, rest: seq<Token>): Outcome {
    if unique then Accepted(rest) else Rejected(DuplicateKey)
  }

  /**
   * On the tokens of any JSON value followed by anything, the scanner accepts and leaves exactly what follows, if no
   * object at any depth repeats a name; otherwise it reports a duplicate key.
   */
  lemma {:induction false} ScanFindsDuplicates(v: Json, rest: seq<Token>)
    ensures Scan(Tokens(v) + rest) == Verdict(UniqueNames(v), rest)
  {
    match v
    case TextValue(_) =>
    case ScalarValue =>
    case ArrayValue(items) =>
      ItemsScanned(items, [CloseArray] + rest);
      ArrayCloses(items, rest);
    case ObjectValue(members) =>
      MembersScanned(members, {}, [CloseObject] + rest);
      ObjectCloses(members, UniqueNames(v), rest);
  }

  lemma Bracketed(open: Token, inner: seq<Token>, close: Token, rest: seq<Token>)
    ensures var ts, after := [open] + inner + [close] + rest, [close] + rest;
            ts != [] && ts[0] == open && ts[1..] == inner + after && after != [] && after[1..] == rest
  {
  }

  lemma ArrayCloses(items: Items, rest: seq<Token>)
    requires ScanItems(ItemTokens(items) + ([CloseArray] + rest)) == Verdict(ItemsUnique(items), [CloseArray] + rest)
    ensures Scan(Tokens(ArrayValue(items)) + rest) == Verdict(ItemsUnique(items), rest)
  {
    Bracketed(OpenArray, ItemTokens(items), CloseArray, rest);
  }

  lemma ObjectCloses(members: Members, unique: bool, rest: seq<Token>)
    requires ScanMembers(MemberTokens(members) + ([CloseObject] + rest), {}) == Verdict(unique, [CloseObject] + rest)
    ensures Scan(Tokens(ObjectValue(members)) + rest) == Verdict(unique, rest)
  {
    Bracketed(OpenObject, MemberTokens(members), CloseObject, rest);
  }

  lemma {:induction false} ItemsScanned(items: Items, rest: seq<Token>)
    requires !More(rest)
    ensures ScanItems(ItemTokens(items) + rest) == Verdict(ItemsUnique(items), rest)
  {
    match items
    case NoItems =>
      assert ItemTokens(items) + rest == rest;
    case Item(v, others) =>
      var after := ItemTokens(others) + rest;
      assert ItemTokens(items) + rest == Tokens(v) + after;
      ScanFindsDuplicates(v, after);
      ItemsScanned(others, rest);
  }

  /** The names still to come are new and distinct. */
  ghost predicate FreshNames(names: seq<string>, keys: set<string>) {
    Distinct(names) && forall i :: 0 <= i < |names| ==> names[i] !in keys
  }

  lemma FreshNamesStep(name: string, names: seq<string>, keys: set<string>)
    ensures FreshNames([name] + names, keys) <==> name !in keys && FreshNames(names, keys + {name})
  {
    var all := [name] + names;
    assert all[0] == name && forall i :: 0 <= i < |names| ==> all[i + 1] == names[i];
    if FreshNames(all, keys) {
      forall i | 0 <= i < |names| ensures names[i] !in keys + {name} {
        assert all[0] != all[i + 1];
      }
      forall i, j | 0 <= i < j < |names| ensures names[i] != names[j] {
        assert all[i + 1] != all[j + 1];
      }
    }
  }

  lemma MemberSplits(name: string, value: seq<Token>, others: seq<Token>, rest: seq<Token>)
    ensures var ts := [Text(name)] + value + others + rest;
            ts != [] && ts[0] == Text(name) && ts[1..] == value + (others + rest)
  {
  }

  /** One member: its name, its value, and the members after it. */
  lemma MemberScanned(ts: seq<Token>, keys: set<string>, name: string, first: Outcome, more: Outcome)
    requires ts != [] && ts[0] == Text(name) && first == Scan(ts[1..])
    requires first.Accepted? ==> more == ScanMembers(first.rest, keys + {name})
    ensures ScanMembers(ts, keys)
         == if name in keys then Rejected(DuplicateKey) else if first.Rejected? then first else more
  {
  }

  lemma {:induction false} MembersScanned(members: Members, keys: set<string>, rest: seq<Token>)
    requires !More(rest)
    ensures ScanMembers(MemberTokens(members) + rest, keys)
         == Verdict(FreshNames(Names(members), keys) && MembersUnique(members), rest)
  {
    match members
    case NoMembers =>
      assert MemberTokens(members) + rest == rest;
    case Member(name, v, others) =>
      var after := MemberTokens(others) + rest;
      MemberSplits(name, Tokens(v), MemberTokens(others), rest);
      FreshNamesStep(name, Names(others), keys);
      ScanFindsDuplicates(v, after);
      MembersScanned(others, keys + {name}, rest);
      MemberScanned(MemberTokens(members) + rest, keys, name, Verdict(UniqueNames(v), after),
                    ScanMembers(after, keys + {name}));
  }

  // ---------------------------------------------------------------- the decoder

  class Decoder {
    var tokens: seq<Token>

    constructor (tokens: seq<Token>)
      ensures this.tokens == tokens
    {
      this.tokens := tokens;
    }

    method Token() returns (token: Option<Token>)
      modifies this
      ensures old(tokens) == [] ==> token == None && tokens == []
      ensures old(tokens) != [] ==> token == Some(old(tokens)[0]) && tokens == old(tokens)[1..]
    {
      if tokens == [] {
        return None;
      }
      token := Some(tokens[0]);
      tokens := tokens[1..];
    }

    /** Read one value; the error, if any. */
    method ScanValue() returns (error: Option<Error>)
      modifies this
      ensures match Scan(old(tokens))
              case Accepted(rest) => error == None && tokens == rest
              case Rejected(e) => error == Some(e)
      decreases |tokens|
    {
      ghost var outcome := Scan(tokens);
      var token := Token();
      if token.None? {
        return Some(EndOfInput);
      }
      match token.value {
        case Text(_) => return None;
        case Scalar => return None;
        case OpenObject =>
          var keys := {};
          while More(tokens)
            invariant |tokens| < |old(tokens)|
            invariant var inside := ScanMembers(tokens, keys);
                      outcome == if inside.Rejected? then inside else Close(inside.rest)
            decreases |tokens|
          {
            var keyToken := Token();
            if keyToken.None? {
              return Some(EndOfInput);
            }
            if !keyToken.value.Text? {
              return Some(InvalidKey);
            }
            var key := keyToken.value.text;
            if key in keys {
              return Some(DuplicateKey);
            }
            keys := keys + {key};
            error := ScanValue();
            if error.Some? {
              return;
            }
          }
        case OpenArray =>
          while More(tokens)
            invariant |tokens| < |old(tokens)|
            invariant var inside := ScanItems(tokens);
                      outcome == if inside.Rejected? then inside else Close(inside.rest)
            decreases |tokens|
          {
            error := ScanValue();
            if error.Some? {
              return;
            }
          }
        case _ => return Some(InvalidDelimiter);
      }
      var closing := Token();
      error := if closing.None? then Some(EndOfInput) else None;
    }
  }

  /** The check made on a decoded document. */
  method RejectDuplicateObjectKeys(ghost document: Json, tokens: seq<Token>) returns (error: Option<Error>)
    requires tokens == Tokens(document)
    ensures error == if UniqueNames(document) then None else Some(DuplicateKey)
  {
    ScanFindsDuplicates(document, []);
    assert tokens + [] == tokens;
    var decoder := new Decoder(tokens);
    error := decoder.ScanValue();
  }
}
