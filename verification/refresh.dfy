// Refresh tokens (server/src/auth/refresh.rs): issuing a token for a
// user, deleting every row that holds a token, and rotating a token into
// a new one for the same user. A token is 32 random bytes written in the
// URL-safe base64 alphabet without padding (section 5 of RFC 4648); the
// random bytes are a parameter.

module Refresh {
  import opened Common
  import opened Db

  type Byte = b: int | 0 <= b < 256

  /// Number of bytes in a token before encoding.
  const TokenBytes := 32

  // ---------------------------------------------------------------------
  // base64url without padding
  // ---------------------------------------------------------------------

  /// The characters of the URL-safe alphabet.
  predicate UrlSafe(c: char)
  {
    ('A' <= c <= 'Z') || ('a' <= c <= 'z') || ('0' <= c <= '9') || c == '-' || c == '_'
  }

  /// The character for a 6-bit value.
  function Sextet(v: nat): (c: char)
    requires v < 64
    ensures UrlSafe(c)
  {
    if v < 26 then ('A' as int + v) as char
    else if v < 52 then ('a' as int + (v - 26)) as char
    else if v < 62 then ('0' as int + (v - 52)) as char
    else if v == 62 then '-'
    else '_'
  }

  /// The 6-bit value of an alphabet character.
  function SextetValue(c: char): (v: nat)
    requires UrlSafe(c)
    ensures v < 64
  {
    if 'A' <= c <= 'Z' then c as int - 'A' as int
    else if 'a' <= c <= 'z' then c as int - 'a' as int + 26
    else if '0' <= c <= '9' then c as int - '0' as int + 52
    else if c == '-' then 62
    else 63
  }

  /// Length of the unpadded encoding of `n` bytes: four characters per
  /// three bytes, and two or three for a final one or two.
  function EncodedLength(n: nat): nat
  {
    4 * (n / 3) + (if n % 3 == 0 then 0 else n % 3 + 1)
  }

  /// The two to four characters for a group of one to three bytes: each
  /// byte contributes its bits in order, and the last character is padded
  /// with zero bits.
  function EncodeGroup(g: seq<Byte>): (s: string)
    requires 1 <= |g| <= 3
    ensures |s| == |g| + 1
    ensures forall i :: 0 <= i < |s| ==> UrlSafe(s[i])
  {
    if |g| == 1 then
      [Sextet(g[0] / 4), Sextet(g[0] % 4 * 16)]
    else if |g| == 2 then
      [Sextet(g[0] / 4), Sextet(g[0] % 4 * 16 + g[1] / 16), Sextet(g[1] % 16 * 4)]
    else
      [Sextet(g[0] / 4), Sextet(g[0] % 4 * 16 + g[1] / 16),
       Sextet(g[1] % 16 * 4 + g[2] / 64), Sextet(g[2] % 64)]
  }

  /// The one to three bytes that two to four alphabet characters spell;
  /// bits left over in the last character are ignored.
  function DecodeGroup(s: string): (g: seq<Byte>)
    requires 2 <= |s| <= 4 && forall i :: 0 <= i < |s| ==> UrlSafe(s[i])
    ensures |g| == |s| - 1
  {
    var v0 := SextetValue(s[0]);
    var v1 := SextetValue(s[1]);
    var b0 := v0 * 4 + v1 / 16;
    if |s| == 2 then [b0]
    else
      var v2 := SextetValue(s[2]);
      var b1 := v1 % 16 * 16 + v2 / 4;
      if |s| == 3 then [b0, b1]
      else [b0, b1, v2 % 4 * 64 + SextetValue(s[3])]
  }

  /// `URL_SAFE_NO_PAD.encode`.
  function Encode(bytes: seq<Byte>): (s: string)
    ensures |s| == EncodedLength(|bytes|)
    ensures forall i :: 0 <= i < |s| ==> UrlSafe(s[i])
  {
    if |bytes| == 0 then ""
    else if |bytes| < 3 then EncodeGroup(bytes)
    else EncodeGroup(bytes[..3]) + Encode(bytes[3..])
  }

  /// The bytes an unpadded base64url text spells, if it spells any.
  function Decode(s: string): Option<seq<Byte>>
  {
    if exists i :: 0 <= i < |s| && !UrlSafe(s[i]) then None
    else if |s| == 0 then Some([])
    else if |s| == 1 then None
    else if |s| < 4 then Some(DecodeGroup(s))
    else
      match Decode(s[4..])
      case None => None
      case Some(rest) => Some(DecodeGroup(s[..4]) + rest)
  }

  /// `random_token`: the encoding of the drawn bytes.
  function Token(bytes: seq<Byte>): (s: string)
    requires |bytes| == TokenBytes
    ensures |s| == 43 && forall i :: 0 <= i < |s| ==> UrlSafe(s[i])
  {
    Encode(bytes)
  }

  // ---------------------------------------------------------------------
  // The refresh_tokens table
  // ---------------------------------------------------------------------

  /// Ids of the rows holding `token`.
  function RowsWith(rows: map<Id, RefreshRow>, token: string): set<Id>
  {
    set k | k in rows && rows[k].token == token
  }

  /// The table after `DELETE ... WHERE token = ?1`.
  function WithoutToken(rows: map<Id, RefreshRow>, token: string): (r: map<Id, RefreshRow>)
    ensures forall k :: k in r <==> k in rows && rows[k].token != token
    ensures forall k :: k in r ==> r[k] == rows[k]
  {
    map k | k in rows && rows[k].token != token :: rows[k]
  }

  /// The table after `rotate` deleted `oldToken` and issued `newToken`
  /// to `user` in the row `id`.
  function Rotated(rows: map<Id, RefreshRow>, id: Id, oldToken: string, user: Id, newToken: string)
    : map<Id, RefreshRow>
  {
    WithoutToken(rows, oldToken)[id := RefreshRow(user, newToken)]
  }

  /// `create`: one new row for the user with a fresh token, which is
  /// returned.
  method Create(db: Store, userId: Id, bytes: seq<Byte>) returns (token: string)
    requires db.Valid() && |bytes| == TokenBytes
    modifies db
    ensures db.Valid() && db.nextId == old(db.nextId) + 1
    ensures token == Token(bytes)
    ensures db.State() == old(db.State()).(refreshTokens := old(db.refreshTokens)[old(db.nextId) := RefreshRow(userId, token)])
  {
    token := Token(bytes);
    var id := db.FreshId();
    db.refreshTokens := db.refreshTokens[id := RefreshRow(userId, token)];
  }

  /// `delete`: removes every row holding the token and answers how many
  /// there were.
  method Delete(db: Store, token: string) returns (count: nat)
    requires db.Valid()
    modifies db
    ensures db.Valid() && db.nextId == old(db.nextId)
    ensures count == |RowsWith(old(db.refreshTokens), token)|
    ensures db.State() == old(db.State()).(refreshTokens := WithoutToken(old(db.refreshTokens), token))
  {
    var before := db.refreshTokens;
    db.refreshTokens := WithoutToken(db.refreshTokens, token);
    DeleteCount(before, token);
    count := |before.Keys| - |db.refreshTokens.Keys|;
  }

  /// `rotate`: an unknown token answers None and changes nothing; a known
  /// one is deleted, and a new token is issued to the user of a row that
  /// held it.
  method Rotate(db: Store, oldToken: string, bytes: seq<Byte>) returns (r: Option<string>)
    requires db.Valid() && |bytes| == TokenBytes
    modifies db
    ensures db.Valid()
    ensures r.None? <==> RowsWith(old(db.refreshTokens), oldToken) == {}
    ensures r.None? ==> db.State() == old(db.State()) && db.nextId == old(db.nextId)
    ensures r.Some? ==> (r.value == Token(bytes) &&
              exists k :: k in RowsWith(old(db.refreshTokens), oldToken) &&
                db.State() == old(db.State()).(refreshTokens :=
                  Rotated(old(db.refreshTokens), old(db.nextId), oldToken, old(db.refreshTokens)[k].userId, r.value)))
  {
    if RowsWith(db.refreshTokens, oldToken) == {} {
      return None;
    }
    var k :| k in RowsWith(db.refreshTokens, oldToken);
    var user := db.refreshTokens[k].userId;
    var _ := Delete(db, oldToken);
    var token := Create(db, user, bytes);
    r := Some(token);
  }

  // ---------------------------------------------------------------------
  // Properties
  // ---------------------------------------------------------------------

  lemma SextetRoundTrip(v: nat)
    requires v < 64
    ensures SextetValue(Sextet(v)) == v
  {
  }

  /// Decoding a group's characters gives the group back.
  lemma GroupRoundTrip(g: seq<Byte>)
    requires 1 <= |g| <= 3
    ensures DecodeGroup(EncodeGroup(g)) == g
  {
    SextetRoundTrip(g[0] / 4);
    if |g| == 1 {
      SextetRoundTrip(g[0] % 4 * 16);
    } else {
      SplitSecondSextet(g[0], g[1]);
      if |g| == 2 {
        SextetRoundTrip(g[1] % 16 * 4);
      } else {
        SplitThirdSextet(g[1], g[2]);
        SextetRoundTrip(g[2] % 64);
      }
    }
  }

  /// The second character carries the low two bits of the first byte and
  /// the high four bits of the second.
  lemma SplitSecondSextet(b0: Byte, b1: Byte)
    ensures var v1 := b0 % 4 * 16 + b1 / 16;
            v1 < 64 && SextetValue(Sextet(v1)) == v1 && v1 / 16 == b0 % 4 && v1 % 16 == b1 / 16
  {
    SextetRoundTrip(b0 % 4 * 16 + b1 / 16);
  }

  /// The third character carries the low four bits of the second byte and
  /// the high two bits of the third.
  lemma SplitThirdSextet(b1: Byte, b2: Byte)
    ensures var v2 := b1 % 16 * 4 + b2 / 64;
            v2 < 64 && SextetValue(Sextet(v2)) == v2 && v2 / 4 == b1 % 16 && v2 % 4 == b2 / 64
  {
    SextetRoundTrip(b1 % 16 * 4 + b2 / 64);
  }

  /// Decoding an encoding gives the bytes back, so distinct bytes give
  /// distinct tokens.
  lemma {:induction false} DecodeEncode(bytes: seq<Byte>)
    ensures Decode(Encode(bytes)) == Some(bytes)
  {
    var s := Encode(bytes);
    assert !exists i :: 0 <= i < |s| && !UrlSafe(s[i]);
    if 0 < |bytes| < 3 {
      GroupRoundTrip(bytes);
    } else if |bytes| >= 3 {
      GroupRoundTrip(bytes[..3]);
      DecodeEncode(bytes[3..]);
      assert s[..4] == EncodeGroup(bytes[..3]);
      assert s[4..] == Encode(bytes[3..]);
      assert bytes[..3] + bytes[3..] == bytes;
    }
  }

  /// Tokens drawn from different bytes differ.
  lemma TokensDistinct(a: seq<Byte>, b: seq<Byte>)
    requires |a| == TokenBytes && |b| == TokenBytes && a != b
    ensures Token(a) != Token(b)
  {
    DecodeEncode(a);
    DecodeEncode(b);
  }

  /// Deleting removes exactly the rows holding the token: none remains,
  /// and the table shrinks by their number.
  lemma DeleteCount(rows: map<Id, RefreshRow>, token: string)
    ensures RowsWith(WithoutToken(rows, token), token) == {}
    ensures |rows.Keys| - |WithoutToken(rows, token).Keys| == |RowsWith(rows, token)|
  {
    var kept := WithoutToken(rows, token).Keys;
    assert rows.Keys == kept + RowsWith(rows, token);
    assert kept * RowsWith(rows, token) == {};
  }

  /// After a rotation the user holds the new token in exactly the fresh
  /// row, every other row is one that did not hold the old token, and the
  /// old token is gone unless the new one happens to equal it.
  lemma RotatedMeaning(rows: map<Id, RefreshRow>, id: Id, oldToken: string, user: Id, newToken: string)
    requires id !in rows
    ensures var rows1 := Rotated(rows, id, oldToken, user, newToken);
            rows1.Keys == (rows.Keys - RowsWith(rows, oldToken)) + {id} &&
            rows1[id] == RefreshRow(user, newToken) &&
            (forall k :: k in rows1 && k != id ==> rows1[k] == rows[k]) &&
            RowsWith(rows1, newToken) == RowsWith(rows, newToken) - RowsWith(rows, oldToken) + {id} &&
            (newToken != oldToken ==> RowsWith(rows1, oldToken) == {})
  {
    var rows1 := Rotated(rows, id, oldToken, user, newToken);
    var kept := WithoutToken(rows, oldToken);
    forall k | k in rows1 && k != id
      ensures k in rows && rows[k].token != oldToken && rows1[k] == rows[k]
    {
      assert k in kept;
    }
    assert rows1.Keys == (rows.Keys - RowsWith(rows, oldToken)) + {id};
    assert RowsWith(rows1, newToken) == RowsWith(rows, newToken) - RowsWith(rows, oldToken) + {id};
  }

  /// Deleting a token no row holds changes nothing.
  lemma DeleteUnknownToken(rows: map<Id, RefreshRow>, token: string)
    requires RowsWith(rows, token) == {}
    ensures WithoutToken(rows, token) == rows
  {
    assert forall k :: k in rows ==> k !in RowsWith(rows, token);
  }
}
