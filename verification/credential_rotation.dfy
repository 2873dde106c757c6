/** RotateCredentials: one pass over an organization's integrations. */
module CredentialRotation {
  import opened CredentialCipher
  import opened Wrappers

  type Fields = map<string, string>

  /** encoding/json on credential maps. */
  datatype Json = Json(marshal: Fields -> string, unmarshal: string -> Option<Fields>)

  ghost predicate JsonLaw(j: Json) {
    forall m: Fields :: j.unmarshal(j.marshal(m)) == Some(m)
  }

  /** A credentials column: not an envelope at all, or one whose "enc" may be absent, hence empty. */
  datatype Column = Malformed | Envelope(enc: string)

  function DecryptCredentials(x: Crypto, j: Json, c: Cipher, column: Column): Option<Fields> {
    match column
    case Malformed => None
    case Envelope(enc) =>
      match Decrypt(x, c, enc)
      case None => None
      case Some(plain) => j.unmarshal(plain)
  }

  function EncryptCredentials(x: Crypto, j: Json, c: Cipher, credentials: Fields, nonce: Option<string>): Option<Column>
    requires c.currentKeyId in c.keys
  {
    match Encrypt(x, c, j.marshal(credentials), nonce)
    case None => None
    case Some(enc) => Some(Envelope(enc))
  }

  /** Holds ciphertext that is not under the current key. */
  predicate Stale(c: Cipher, column: Column) {
    column.Envelope? && column.enc != "" && NeedsRotation(c, column.enc)
  }

  /** What chance gives each row: a nonce, and whether the update is saved. */
  datatype World = World(nonce: nat -> Option<string>, saved: nat -> bool)

  /** The row can be rotated now. */
  predicate Rotatable(x: Crypto, j: Json, c: Cipher, w: World, i: nat, column: Column) {
    DecryptCredentials(x, j, c, column).Some? && w.nonce(i).Some? && w.saved(i)
  }

  datatype Outcome = Outcome(rows: seq<Column>, checked: nat, rotated: nat, ok: bool)

  class IntegrationService {
    var rows: seq<Column>
    const x: Crypto
    const j: Json
    const cipher: Cipher

    constructor (x: Crypto, j: Json, cipher: Cipher, rows: seq<Column>)
      ensures this.x == x && this.j == j && this.cipher == cipher && this.rows == rows
    {
      this.x, this.j, this.cipher, this.rows := x, j, cipher, rows;
    }

    method RotateCredentials(w: World) returns (checked: nat, rotated: nat, ok: bool)
      requires Sound(x, cipher)
      modifies this
      ensures Outcome(rows, checked, rotated, ok) == Pass(x, j, cipher, w, old(rows), |old(rows)|)
    {
      hide Stale, DecryptCredentials, EncryptCredentials;
      var integrations := rows;
      checked, rotated, ok := 0, 0, true;
      for i := 0 to |integrations|
        invariant rows == Pass(x, j, cipher, w, integrations, i).rows && |rows| == |integrations|
        invariant Pass(x, j, cipher, w, integrations, i) == Outcome(rows, checked, rotated, true)
      {
        var rec := integrations[i];
        checked := checked + 1;
        if !Stale(cipher, rec) {
          continue;
        }
        var credentials := DecryptCredentials(x, j, cipher, rec);
        if credentials.None? {
          FailureStays(x, j, cipher, w, integrations, i + 1, |integrations|);
          return checked, rotated, false;
        }
        var encrypted := EncryptCredentials(x, j, cipher, credentials.value, w.nonce(i));
        if encrypted.None? {
          FailureStays(x, j, cipher, w, integrations, i + 1, |integrations|);
          return checked, rotated, false;
        }
        if !w.saved(i) {
          FailureStays(x, j, cipher, w, integrations, i + 1, |integrations|);
          return checked, rotated, false;
        }
        rows := rows[i := encrypted.value];
        rotated := rotated + 1;
      }
    }
  }

  /** The pass over the first n rows. */
  function Pass(x: Crypto, j: Json, c: Cipher, w: World, rows: seq<Column>, n: nat): (o: Outcome)
    requires n <= |rows| && c.currentKeyId in c.keys
    ensures |o.rows| == |rows|
  {
    if n == 0 then Outcome(rows, 0, 0, true)
    else
      var o, i := Pass(x, j, c, w, rows, n - 1), n - 1;
      if !o.ok then o
      else if !Stale(c, rows[i]) then o.(checked := n)
      else
        match DecryptCredentials(x, j, c, rows[i])
        case None => o.(checked := n, ok := false)
        case Some(credentials) =>
          match EncryptCredentials(x, j, c, credentials, w.nonce(i))
          case None => o.(checked := n, ok := false)
          case Some(encrypted) =>
            if !w.saved(i) then o.(checked := n, ok := false)
            else o.(rows := o.rows[i := encrypted], checked := n, rotated := o.rotated + 1)
  }

  lemma {:induction false} FailureStays(x: Crypto, j: Json, c: Cipher, w: World, rows: seq<Column>, n: nat, m: nat)
    requires n <= m <= |rows| && c.currentKeyId in c.keys && !Pass(x, j, c, w, rows, n).ok
    ensures Pass(x, j, c, w, rows, m) == Pass(x, j, c, w, rows, n)
    decreases m
  {
    hide Stale, DecryptCredentials, EncryptCredentials;
    if n < m {
      FailureStays(x, j, c, w, rows, n, m - 1);
    }
  }

  function CountStale(c: Cipher, rows: seq<Column>): nat {
    if rows == [] then 0
    else CountStale(c, rows[..|rows| - 1]) + (if Stale(c, rows[|rows| - 1]) then 1 else 0)
  }

  /** A column re-encrypted to the same plaintext under the current key. */
  ghost predicate Reencrypted(x: Crypto, j: Json, c: Cipher, before: Column, after: Column) {
    && Stale(c, before) && !Stale(c, after) && after.Envelope? && after.enc != ""
    && DecryptCredentials(x, j, c, after).Some?
    && DecryptCredentials(x, j, c, after) == DecryptCredentials(x, j, c, before)
  }

  lemma {:induction false} ReencryptOne(x: Crypto, j: Json, c: Cipher, before: Column, nonce: Option<string>)
    requires CryptoLaw(x) && JsonLaw(j) && Sound(x, c)
    requires Stale(c, before) && DecryptCredentials(x, j, c, before).Some?
    ensures EncryptCredentials(x, j, c, DecryptCredentials(x, j, c, before).value, nonce).Some? <==> nonce.Some?
    ensures nonce.Some? ==>
              Reencrypted(x, j, c, before,
                          EncryptCredentials(x, j, c, DecryptCredentials(x, j, c, before).value, nonce).value)
  {
    hide Decrypt, NeedsRotation;
    if nonce.Some? {
      EncryptedIsCurrent(x, c, j.marshal(DecryptCredentials(x, j, c, before).value), nonce.value);
    }
  }

  /** After the first n rows: rows up to the point of failure that were stale are re-encrypted to
      the same plaintext, all others are untouched, and both counters are exact. */
  lemma {:induction false} PassSoFar(x: Crypto, j: Json, c: Cipher, w: World, rows: seq<Column>, n: nat)
    requires CryptoLaw(x) && JsonLaw(j) && Sound(x, c) && n <= |rows|
    ensures var o := Pass(x, j, c, w, rows, n);
            && o.checked <= n && (o.ok ==> o.checked == n) && (!o.ok ==> o.checked > 0)
            && o.rotated == CountStale(c, rows[..if o.ok then n else o.checked - 1])
            && (forall i :: 0 <= i < (if o.ok then n else o.checked - 1) && Stale(c, rows[i]) ==>
                              Reencrypted(x, j, c, rows[i], o.rows[i]) && Rotatable(x, j, c, w, i, rows[i]))
            && (forall i :: 0 <= i < |rows| && (!Stale(c, rows[i]) || i >= (if o.ok then n else o.checked - 1)) ==>
                              o.rows[i] == rows[i])
            && (!o.ok ==> Stale(c, rows[o.checked - 1]) && !Rotatable(x, j, c, w, o.checked - 1, rows[o.checked - 1]))
  {
    hide Stale, DecryptCredentials, EncryptCredentials, Reencrypted, CryptoLaw, JsonLaw, Sound;
    assert c.currentKeyId in c.keys by { SoundHasKey(x, c); }
    if n > 0 {
      PassSoFar(x, j, c, w, rows, n - 1);
      if Pass(x, j, c, w, rows, n - 1).ok {
        assert rows[..n][..n - 1] == rows[..n - 1];
        if Stale(c, rows[n - 1]) && DecryptCredentials(x, j, c, rows[n - 1]).Some? {
          ReencryptOne(x, j, c, rows[n - 1], w.nonce(n - 1));
        }
      }
    }
  }

  lemma {:induction false} SoundHasKey(x: Crypto, c: Cipher)
    requires Sound(x, c)
    ensures c.currentKeyId in c.keys
  {
  }

  /** A pass succeeds exactly when every stale row can be rotated. */
  lemma {:induction false} SucceedsExactly(x: Crypto, j: Json, c: Cipher, w: World, rows: seq<Column>)
    requires CryptoLaw(x) && JsonLaw(j) && Sound(x, c)
    ensures Pass(x, j, c, w, rows, |rows|).ok <==>
              forall i :: 0 <= i < |rows| && Stale(c, rows[i]) ==> Rotatable(x, j, c, w, i, rows[i])
  {
    hide Stale, Rotatable, Pass, Reencrypted, CryptoLaw, JsonLaw;
    PassSoFar(x, j, c, w, rows, |rows|);
  }

  /** Every plaintext survives a pass, failed or not. */
  lemma {:induction false} PlaintextsSurvive(x: Crypto, j: Json, c: Cipher, w: World, rows: seq<Column>, i: nat)
    requires CryptoLaw(x) && JsonLaw(j) && Sound(x, c) && i < |rows|
    ensures var after := Pass(x, j, c, w, rows, |rows|).rows[i];
            && (after == rows[i] || Reencrypted(x, j, c, rows[i], after))
            && DecryptCredentials(x, j, c, after) == DecryptCredentials(x, j, c, rows[i])
  {
    hide Stale, Rotatable, Pass, CryptoLaw, JsonLaw, DecryptCredentials;
    PassSoFar(x, j, c, w, rows, |rows|);
  }

  lemma {:induction false} NoneStale(c: Cipher, rows: seq<Column>)
    requires forall i :: 0 <= i < |rows| ==> !Stale(c, rows[i])
    ensures CountStale(c, rows) == 0
  {
    if rows != [] {
      NoneStale(c, rows[..|rows| - 1]);
    }
  }

  /** A pass without error rotates exactly the stale rows and leaves none; a second pass, whatever
      chance gives it, then succeeds, changes nothing and rotates none. */
  lemma {:induction false} SecondPassRotatesNothing(
      x: Crypto, j: Json, c: Cipher, w: World, again: World, rows: seq<Column>)
    requires CryptoLaw(x) && JsonLaw(j) && Sound(x, c)
    requires Pass(x, j, c, w, rows, |rows|).ok
    ensures var o := Pass(x, j, c, w, rows, |rows|);
            && o.checked == |rows| && o.rotated == CountStale(c, rows)
            && (forall i :: 0 <= i < |rows| ==> !Stale(c, o.rows[i]))
            && Pass(x, j, c, again, o.rows, |rows|) == Outcome(o.rows, |rows|, 0, true)
  {
    hide Stale, Rotatable, Pass, CryptoLaw, JsonLaw, DecryptCredentials;
    PassSoFar(x, j, c, w, rows, |rows|);
    assert rows[..|rows|] == rows;
    var after := Pass(x, j, c, w, rows, |rows|).rows;
    forall i | 0 <= i < |rows| ensures !Stale(c, after[i]) {
      assert Stale(c, rows[i]) ==> Reencrypted(x, j, c, rows[i], after[i]);
    }
    NoneStale(c, after);
    assert after[..|after|] == after;
    PassSoFar(x, j, c, again, after, |after|);
    assert forall i :: 0 <= i < |after| ==> Pass(x, j, c, again, after, |after|).rows[i] == after[i];
  }

  /** Stale is ciphertext that is there and does not carry the current key's tag. */
  lemma {:induction false} StaleExactly(x: Crypto, c: Cipher, column: Column)
    requires CryptoLaw(x) && Sound(x, c)
    ensures Stale(c, column) <==>
              column.Envelope? && column.enc != "" && !exists payload :: column.enc == c.currentKeyId + ":" + payload
  {
    hide NeedsRotation, CryptoLaw, Sound;
    if column.Envelope? {
      CurrentExactly(x, c, column.enc);
    }
  }

  /** After a pass without error every ciphertext there is carries the current key's tag. */
  lemma {:induction false} PassLeavesCurrentTags(x: Crypto, j: Json, c: Cipher, w: World, rows: seq<Column>, i: nat)
    requires CryptoLaw(x) && JsonLaw(j) && Sound(x, c) && i < |rows|
    requires Pass(x, j, c, w, rows, |rows|).ok
    ensures var after := Pass(x, j, c, w, rows, |rows|).rows[i];
            && (after.Envelope? <==> rows[i].Envelope?)
            && (after.Envelope? && after.enc != "" ==> exists payload :: after.enc == c.currentKeyId + ":" + payload)
  {
    hide Pass, CryptoLaw, JsonLaw, DecryptCredentials, NeedsRotation;
    SecondPassRotatesNothing(x, j, c, w, w, rows);
    PassSoFar(x, j, c, w, rows, |rows|);
    var after := Pass(x, j, c, w, rows, |rows|).rows[i];
    if after.Envelope? && after.enc != "" {
      CurrentExactly(x, c, after.enc);
    }
  }
}
