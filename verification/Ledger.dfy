/** The gateway's side of a write: the one-use ledger, and the route that consumes an approval
    before it runs the tool. */
module Ledger {
  import opened JsonValues
  import opened JsonText
  import opened Canonical
  import opened Tools
  import Scopes

  /** HMAC-SHA256 (RFC 2104) as a free constructor: a tag is the MAC of one message under one
      secret, or some other text. */
  datatype Signature = Mac(secret: string, message: string) | NotAMac(text: string)

  function Sign(secret: string, id: string, tool: string, arguments: Json, expires: string): Signature {
    Mac(secret, Message(id, tool, arguments, expires))
  }

  datatype Row = Row(tool: string, consumedAt: int, result: Option<Json>)

  datatype Denial =
    | InvalidApproval | NoExpiry | OutsideLifetime | WrongSignature | AlreadyConsumed | WritesDisabled | OutOfScope

  const LIFETIME: int := 600

  predicate IdCharacter(c: char) {
    'A' <= c <= 'Z' || 'a' <= c <= 'z' || '0' <= c <= '9' || c == '_' || c == '-'
  }

  predicate ActionId(id: string) {
    8 <= |id| <= 128 && forall i | 0 <= i < |id| :: IdCharacter(id[i])
  }

  /** Why a consume is refused, if it is. */
  function Denied(rows: map<string, Row>, secret: string, id: string, tool: string, arguments: Json, expires: string,
                  signature: Signature, now: int): Option<Denial>
  {
    if |secret| < 32 || !ActionId(id) then Some(InvalidApproval)
    else if ParseNat(expires).None? then Some(NoExpiry)
    else if ParseNat(expires).value <= now || ParseNat(expires).value > now + LIFETIME then Some(OutsideLifetime)
    else if signature != Sign(secret, id, tool, arguments, expires) then Some(WrongSignature)
    else if id in rows then Some(AlreadyConsumed)
    else None
  }

  class ApprovalLedger {
    var rows: map<string, Row>

    constructor ()
      ensures rows == map[]
    {
      rows := map[];
    }

    /** Inserting a second row with the same id violates the primary key. */
    method Insert(id: string, row: Row) returns (inserted: bool)
      modifies this
      ensures inserted == (id !in old(rows))
      ensures rows == if inserted then old(rows)[id := row] else old(rows)
    {
      inserted := id !in rows;
      if inserted { rows := rows[id := row]; }
    }

    method Consume(secret: string, id: string, tool: string, arguments: Json, expires: string, signature: Signature,
                   now: int)
      returns (denial: Option<Denial>)
      modifies this
      ensures denial == Denied(old(rows), secret, id, tool, arguments, expires, signature, now)
      ensures rows == if denial.None? then old(rows)[id := Row(tool, now, None)] else old(rows)
    {
      if |secret| < 32 || !ActionId(id) {
        return Some(InvalidApproval);
      }
      var expiry := ParseNat(expires);
      if expiry.None? {
        return Some(NoExpiry);
      }
      if expiry.value <= now || expiry.value > now + LIFETIME {
        return Some(OutsideLifetime);
      }
      if signature != Sign(secret, id, tool, arguments, expires) {
        return Some(WrongSignature);
      }
      var inserted := Insert(id, Row(tool, now, None));
      denial := if inserted then None else Some(AlreadyConsumed);
    }

    method Complete(id: string, result: Json)
      modifies this
      ensures rows == if id in old(rows) then old(rows)[id := old(rows)[id].(result := Some(result))] else old(rows)
    {
      if id in rows { rows := rows[id := rows[id].(result := Some(result))]; }
    }
  }

  // --- The route ---

  datatype Request = Request(id: string, tool: string, arguments: seq<Field>, expires: string, signature: Signature)

  datatype Execution = Execution(id: string, tool: string, arguments: seq<Field>)

  datatype GatewayConfig = GatewayConfig(scopes: Scopes.Config, secret: string, writesEnabled: bool)

  /** A write takes exactly one argument, the text that names its target. */
  predicate WriteArguments(tool: string, arguments: seq<Field>) {
    && |arguments| == 1 && arguments[0].value.JStr?
    && arguments[0].key == if tool in CONTAINER_WRITES then "container" else "service"
  }

  /** Why the route does not run a write whose arguments parsed, if it does not. */
  function Refusal(config: GatewayConfig, rows: map<string, Row>, r: Request, now: int): Option<Denial> {
    if !Scopes.InScope(config.scopes, r.tool, r.arguments) then Some(OutOfScope)
    else if !config.writesEnabled then Some(WritesDisabled)
    else Denied(rows, config.secret, r.id, r.tool, JObj(r.arguments), r.expires, r.signature, now)
  }

  const BODY_LIMIT: nat := 8192

  function Concat(chunks: seq<string>): string {
    if chunks == [] then "" else Concat(chunks[..|chunks| - 1]) + chunks[|chunks| - 1]
  }

  lemma {:induction false} ConcatGrows(chunks: seq<string>, i: nat)
    requires i <= |chunks|
    ensures |Concat(chunks[..i])| <= |Concat(chunks)|
  {
    if i < |chunks| {
      assert chunks[..|chunks| - 1][..i] == chunks[..i];
      ConcatGrows(chunks[..|chunks| - 1], i);
    } else {
      assert chunks[..i] == chunks;
    }
  }

  /** The chunks in a row. */
  lemma {:induction false} ConcatExactly(a: seq<string>, b: seq<string>, chunk: string)
    ensures Concat(a + b) == Concat(a) + Concat(b) && Concat([chunk]) == chunk
  {
    if b == [] {
      assert a + b == a;
    } else {
      assert (a + b)[..|a + b| - 1] == a + b[..|b| - 1];
      ConcatExactly(a, b[..|b| - 1], chunk);
    }
    assert [chunk][..0] == [];
  }

  /** The body is accepted whole exactly when it fits; nothing beyond the limit is ever held. */
  method ReadBody(chunks: seq<string>) returns (body: Option<string>)
    ensures body == if |Concat(chunks)| <= 8192 then Some(Concat(chunks)) else None
  {
    var buffer := "";
    var i := 0;
    while i < |chunks|
      invariant 0 <= i <= |chunks| && buffer == Concat(chunks[..i]) && |buffer| <= BODY_LIMIT
    {
      assert chunks[..i + 1][..i] == chunks[..i];
      if |buffer| + |chunks[i]| > BODY_LIMIT {
        ConcatGrows(chunks, i + 1);
        return None;
      }
      buffer := buffer + chunks[i];
      i := i + 1;
    }
    assert chunks[..i] == chunks;
    body := Some(buffer);
  }

  class Gateway {
    const config: GatewayConfig
    const ledger: ApprovalLedger
    var handled: seq<Execution>

    constructor (config: GatewayConfig, ledger: ApprovalLedger)
      ensures this.config == config && this.ledger == ledger && handled == []
    {
      this.config, this.ledger := config, ledger;
      handled := [];
    }

    /** Scope, then consume, then the handler, then complete: nothing runs without a new row, and
        whatever the handler replies is stored in that row. */
    method ExecuteWrite(r: Request, reply: Json, now: int) returns (denial: Option<Denial>)
      requires WriteArguments(r.tool, r.arguments)
      modifies this, ledger
      ensures denial == Refusal(config, old(ledger.rows), r, now)
      ensures handled == if denial.None? then old(handled) + [Execution(r.id, r.tool, r.arguments)] else old(handled)
      ensures ledger.rows == if denial.None? then old(ledger.rows)[r.id := Row(r.tool, now, Some(reply))]
        else old(ledger.rows)
    {
      if !Scopes.InScope(config.scopes, r.tool, r.arguments) {
        return Some(OutOfScope);
      }
      if !config.writesEnabled {
        return Some(WritesDisabled);
      }
      denial := ledger.Consume(config.secret, r.id, r.tool, JObj(r.arguments), r.expires, r.signature, now);
      if denial.None? {
        handled := handled + [Execution(r.id, r.tool, r.arguments)];
        ledger.Complete(r.id, reply);
      }
    }
  }

  // --- Exactly when a consume is refused, and for what ---

  /** A letter, a digit, a hyphen or an underscore of ASCII. */
  predicate IsWordCode(n: int) {
    48 <= n <= 57 || 65 <= n <= 90 || 97 <= n <= 122 || n == 45 || n == 95
  }

  /** 8 to 128 letters, digits, underscores and hyphens. */
  ghost predicate GoodId(id: string) {
    8 <= |id| && |id| <= 128 && forall i :: 0 <= i < |id| ==> IsWordCode(id[i] as int)
  }

  lemma IdsExactly(id: string)
    ensures ActionId(id) <==> GoodId(id)
  {
    forall c: char ensures IdCharacter(c) <==> IsWordCode(c as int) {}
  }

  /** The text is the number in decimal, behind any zeros. */
  ghost predicate ReadsAs(expires: string, e: nat) {
    exists z: nat :: expires == Zeros(z) + Digits(e)
  }

  /** Both sides authenticate one text: the id, the tool, the arguments with sorted keys, and the expiry. */
  function Authenticated(id: string, tool: string, arguments: Json, expires: string): string {
    id + ":" + tool + ":" + CanonicalArguments(arguments) + ":" + expires
  }

  lemma MessageExactly(id: string, tool: string, arguments: Json, expires: string)
    ensures Message(id, tool, arguments, expires) == Authenticated(id, tool, arguments, expires)
  {
    WriteThenRest(Canon(arguments), true, ":" + expires);
    var written := CanonicalArguments(arguments);
    assert id + (":" + (tool + (":" + (written + (":" + expires))))) == id + ":" + tool + ":" + written + ":" + expires;
  }

  /** A consume is accepted, or refused for the first of these reasons: a short secret or a malformed id, an
      expiry that is no number, one that has passed or lies more than 600 seconds ahead, a signature that is
      not over exactly this text, and an id that was consumed before. */
  lemma DeniedExactly(rows: map<string, Row>, secret: string, id: string, tool: string, arguments: Json,
                      expires: string, signature: Signature, now: int)
    ensures var proper := |secret| >= 32 && GoodId(id);
      var dated := exists e: nat :: ReadsAs(expires, e);
      var timely := exists e: nat :: ReadsAs(expires, e) && now < e <= now + 600;
      var genuine := signature == Mac(secret, Authenticated(id, tool, arguments, expires));
      Denied(rows, secret, id, tool, arguments, expires, signature, now) ==
        if !proper then Some(InvalidApproval)
        else if !dated then Some(NoExpiry)
        else if !timely then Some(OutsideLifetime)
        else if !genuine then Some(WrongSignature)
        else if id in rows then Some(AlreadyConsumed)
        else None
  {
    IdsExactly(id);
    MessageExactly(id, tool, arguments, expires);
    forall e: nat ensures ParseNat(expires) == Some(e) <==> ReadsAs(expires, e) { ParseNatExactly(expires, e); }
  }

  // --- A fresh honest request is accepted ---

  /** What the backend signed is accepted within its lifetime, whatever order the gateway's parser
      gave the arguments, as long as both hold the same secret and the id was never consumed. */
  lemma HonestRequestIsConsumed(rows: map<string, Row>, secret: string, id: string, tool: string, sent: seq<Field>,
                                received: seq<Field>, at: nat, now: int)
    requires |secret| >= 32 && ActionId(id) && id !in rows
    requires UniqueKeys(sent) && UniqueKeys(received) && multiset(sent) == multiset(received)
    requires at <= now < at + 120
    ensures var expires := Digits(at + 120);
      Denied(rows, secret, id, tool, JObj(received), expires, Sign(secret, id, tool, JObj(sent), expires), now).None?
  {
    ParseDigits(at + 120);
    CanonicalIgnoresOrder(sent, received);
    assert Message(id, tool, JObj(sent), Digits(at + 120)) == Message(id, tool, JObj(received), Digits(at + 120));
  }

  /** An accepted signature binds the id, the tool, the arguments up to field order, and the expiry. */
  lemma AcceptedMeansSigned(rows: map<string, Row>, secret: string, id: string, tool: string, arguments: Json,
                            expires: string, now: int,
                            id': string, tool': string, arguments': Json, expires': string)
    requires Denied(rows, secret, id, tool, arguments, expires, Sign(secret, id', tool', arguments', expires'),
      now).None?
    requires ColonFree(tool) && ColonFree(tool') && ColonFree(id')
    ensures id == id' && tool == tool' && Canon(arguments) == Canon(arguments') && expires == expires'
    ensures id !in rows && ParseNat(expires).Some? && now < ParseNat(expires).value <= now + LIFETIME
  {
    IdsAreColonFree(id);
    MessageDecodesUniquely(id, tool, arguments, expires, id', tool', arguments', expires');
  }

  lemma IdsAreColonFree(id: string)
    requires ActionId(id)
    ensures ColonFree(id)
  {
    forall i | 0 <= i < |id| ensures id[i] != ':' {
      assert IdCharacter(id[i]);
    }
  }
}
