/** What arrives from an upstream: a body is a sequence of chunks that may break. */
module Wire {
  import opened Prelude

  newtype byte = x: int | 0 <= x < 256

  datatype Piece = Data(bytes: seq<byte>) | Broken

  /** The bytes an upstream body yields up to its first break. */
  function Payload(body: seq<Piece>): seq<byte> {
    if body == [] || body[0].Broken? then [] else body[0].bytes + Payload(body[1..])
  }

  /** The body ends without a break. */
  predicate Clean(body: seq<Piece>) { forall p | p in body :: p.Data? }

  /** Nothing follows a break. */
  predicate Fused(body: seq<Piece>) { forall i | 0 <= i < |body| - 1 :: body[i].Data? }

  lemma {:induction false} PayloadAppend(a: seq<Piece>, b: seq<Piece>)
    requires Clean(a)
    ensures Payload(a + b) == Payload(a) + Payload(b)
  {
    if a == [] {
      assert a + b == b;
    } else {
      var c, rest := a[0], a[1..];
      assert c in a && Clean(rest);
      assert a == [c] + rest && a + b == [c] + (rest + b);
      hide Payload, Clean;
      PayloadAppend(rest, b);
      PayloadCons(c.bytes, rest);
      PayloadCons(c.bytes, rest + b);
      AppendTwice(c.bytes, Payload(rest), Payload(b));
    }
  }

  lemma AppendTwice<T>(a: seq<T>, b: seq<T>, c: seq<T>)
    ensures a + b + c == a + (b + c)
  {
  }

  lemma {:induction false} PayloadCons(c: seq<byte>, rest: seq<Piece>)
    ensures Payload([Data(c)] + rest) == c + Payload(rest)
  {
    assert ([Data(c)] + rest)[1..] == rest;
  }

  /** One more chunk of a body that has not broken yet. */
  lemma {:induction false} PayloadStep(body: seq<Piece>, i: nat)
    requires i < |body| && Clean(body[..i])
    ensures body[i].Data? ==> Clean(body[..i + 1]) && Payload(body[..i + 1]) == Payload(body[..i]) + body[i].bytes
    ensures body[i].Broken? ==> Payload(body) == Payload(body[..i])
    ensures Payload(body[..i]) <= Payload(body)
  {
    assert body == body[..i] + body[i..] && body[..i + 1] == body[..i] + [body[i]];
    PayloadAppend(body[..i], body[i..]);
    PayloadAppend(body[..i], [body[i]]);
  }
}
