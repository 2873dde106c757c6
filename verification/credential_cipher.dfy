/** Stored credentials: the key-tagged ciphertext, and which ciphers can read it. */
module CredentialCipher {
  import opened Strings
  import opened Wrappers

  type Key = string

  /** Hashing and AES-GCM. A nonce of None is a failed draw of randomness. */
  datatype Crypto = Crypto(
    derive: string -> Key,
    keyId: Key -> string,
    seal: (Key, string, string) -> string,
    open: (Key, string) -> Option<string>,
    space: char -> bool)

  /** Sealing can be undone, and an id is eight characters without a colon. */
  ghost predicate CryptoLaw(x: Crypto) {
    && (forall k, text, nonce :: x.open(k, x.seal(k, text, nonce)) == Some(text))
    && (forall k :: |x.keyId(k)| == 8 && ':' !in x.keyId(k))
  }

  function SecretId(x: Crypto, secret: string): string {
    x.keyId(x.derive(secret))
  }

  /** Among these secrets, different ones have different key ids. */
  ghost predicate NoCollision(x: Crypto, secrets: set<string>) {
    forall s, t :: s in secrets && t in secrets && SecretId(x, s) == SecretId(x, t) ==> s == t
  }

  /** Every previous secret, trimmed, is one of these. */
  ghost predicate DrawnFrom(x: Crypto, previous: seq<string>, secrets: set<string>) {
    forall i :: 0 <= i < |previous| ==> TrimSpace(previous[i], x.space) in secrets
  }

  const LEGACY_KEY_ID := "legacy"

  datatype Cipher = Cipher(currentKeyId: string, keys: map<string, Key>)

  // ---------------------------------------------------------------- the key tag

  /** strings.Index(s, ":"), with |s| for "not found". */
  function Index(s: string): (i: nat)
    ensures i <= |s| && ':' !in s[..i]
    ensures i < |s| ==> s[i] == ':'
  {
    if s == "" || s[0] == ':' then 0
    else
      assert s[..1 + Index(s[1..])] == [s[0]] + s[1..][..Index(s[1..])];
      1 + Index(s[1..])
  }

  datatype KeyTag = Tagged(keyId: string, payload: string) | Untagged

  function SplitKeyTag(encoded: string): KeyTag {
    var i := Index(encoded);
    if i == |encoded| || i == 0 then Untagged
    else if i != 8 then Untagged
    else Tagged(encoded[..i], encoded[i + 1..])
  }

  /** Tagging and splitting undo each other. */
  lemma {:induction false} TagRoundTrip(encoded: string, keyId: string, payload: string)
    ensures SplitKeyTag(encoded) == Tagged(keyId, payload) <==>
              |keyId| == 8 && ':' !in keyId && encoded == keyId + ":" + payload
  {
    var i := Index(encoded);
    if |keyId| == 8 && ':' !in keyId && encoded == keyId + ":" + payload {
      assert encoded[..8] == keyId && encoded[8] == ':' && encoded[9..] == payload;
      assert forall k :: 0 <= k < 8 ==> encoded[k] == keyId[k];
      assert i == 8 by {
        assert forall k :: 0 <= k < i ==> encoded[k] in encoded[..i];
      }
    }
    if SplitKeyTag(encoded) == Tagged(keyId, payload) {
      assert encoded == encoded[..8] + ":" + encoded[9..];
    }
  }

  // ---------------------------------------------------------------- building a cipher

  function WithPrevious(x: Crypto, keys: map<string, Key>, previous: seq<string>): (all: map<string, Key>)
    ensures keys.Keys <= all.Keys
  {
    if previous == [] then keys
    else
      var before := WithPrevious(x, keys, previous[..|previous| - 1]);
      var secret := TrimSpace(previous[|previous| - 1], x.space);
      if secret == "" then before else before[x.keyId(x.derive(secret)) := x.derive(secret)]
  }

  function NewCipher(x: Crypto, secret: string, previous: seq<string>): (c: Cipher)
    ensures c.currentKeyId in c.keys
  {
    var key := x.derive(secret);
    Cipher(x.keyId(key), WithPrevious(x, map[x.keyId(key) := key][LEGACY_KEY_ID := key], previous))
  }

  method NewCredentialCipher(x: Crypto, secret: string, previousSecrets: seq<string>) returns (c: Cipher)
    ensures c == NewCipher(x, secret, previousSecrets)
  {
    var currentKey := x.derive(secret);
    var currentId := x.keyId(currentKey);
    var keys := map[currentId := currentKey];
    keys := keys[LEGACY_KEY_ID := currentKey];
    ghost var base := keys;
    for i := 0 to |previousSecrets|
      invariant keys == WithPrevious(x, base, previousSecrets[..i])
    {
      assert previousSecrets[..i + 1][..i] == previousSecrets[..i];
      var prev := TrimSpace(previousSecrets[i], x.space);
      if prev == "" {
        continue;
      }
      var k := x.derive(prev);
      keys := keys[x.keyId(k) := k];
    }
    assert previousSecrets[..|previousSecrets|] == previousSecrets;
    c := Cipher(currentId, keys);
  }

  ghost predicate KeptAmong(x: Crypto, previous: seq<string>, kept: string) {
    exists i :: 0 <= i < |previous| && TrimSpace(previous[i], x.space) == kept && kept != ""
  }

  /** The secrets a cipher keeps: the current one, and every previous one that is not blank, trimmed. */
  ghost predicate Keeps(x: Crypto, secret: string, previous: seq<string>, kept: string) {
    kept == secret || KeptAmong(x, previous, kept)
  }

  lemma {:induction false} KeptLast(x: Crypto, previous: seq<string>, kept: string)
    requires previous != []
    ensures var n := |previous| - 1;
            KeptAmong(x, previous, kept) <==>
              KeptAmong(x, previous[..n], kept) || (TrimSpace(previous[n], x.space) == kept && kept != "")
  {
    hide TrimSpace;
    var front := previous[..|previous| - 1];
    assert forall i :: 0 <= i < |front| ==> front[i] == previous[i];
  }

  lemma {:induction false} KeptKeys(
    x: Crypto, keys: map<string, Key>, previous: seq<string>, kept: string, secrets: set<string>)
    requires NoCollision(x, secrets) && DrawnFrom(x, previous, secrets) && kept in secrets
    ensures SecretId(x, kept) in WithPrevious(x, keys, previous) <==>
              SecretId(x, kept) in keys || KeptAmong(x, previous, kept)
    decreases |previous|
  {
    hide TrimSpace, KeptAmong;
    if previous == [] {
      NoneKept(x, kept);
    } else {
      var n := |previous| - 1;
      var last := TrimSpace(previous[n], x.space);
      assert last in secrets;
      KeptKeys(x, keys, previous[..n], kept, secrets);
      KeptLast(x, previous, kept);
      assert SecretId(x, last) == SecretId(x, kept) <==> last == kept;
    }
  }

  lemma {:induction false} NoneKept(x: Crypto, kept: string)
    ensures !KeptAmong(x, [], kept)
  {
  }

  /** Every key but "legacy" is that of one of these secrets, under its own id. */
  ghost predicate OwnIds(x: Crypto, keys: map<string, Key>, secrets: set<string>) {
    forall id :: id in keys && |id| == 8 ==> IsKeyOf(x, id, keys[id], secrets)
  }

  ghost predicate IsKeyOf(x: Crypto, id: string, key: Key, secrets: set<string>) {
    exists s :: s in secrets && key == x.derive(s) && id == SecretId(x, s)
  }

  lemma {:induction false} PreviousKeepOwnIds(
      x: Crypto, keys: map<string, Key>, previous: seq<string>, secrets: set<string>)
    requires OwnIds(x, keys, secrets) && DrawnFrom(x, previous, secrets)
    ensures OwnIds(x, WithPrevious(x, keys, previous), secrets)
    decreases |previous|
  {
    hide TrimSpace;
    if previous != [] {
      var n := |previous| - 1;
      PreviousKeepOwnIds(x, keys, previous[..n], secrets);
      var last := TrimSpace(previous[n], x.space);
      assert IsKeyOf(x, SecretId(x, last), x.derive(last), secrets);
    }
  }

  /** A cipher whose current key is registered under its own id. */
  ghost predicate Sound(x: Crypto, c: Cipher) {
    c.currentKeyId in c.keys && c.currentKeyId == x.keyId(c.keys[c.currentKeyId])
  }

  /** NewCredentialCipher makes a sound cipher whose keys carry their own ids. */
  lemma {:induction false} CipherIsSound(x: Crypto, secret: string, previous: seq<string>, secrets: set<string>)
    requires CryptoLaw(x) && NoCollision(x, secrets) && DrawnFrom(x, previous, secrets) && secret in secrets
    ensures var c := NewCipher(x, secret, previous);
            Sound(x, c) && c.currentKeyId == SecretId(x, secret) && OwnIds(x, c.keys, secrets)
  {
    hide NoCollision;
    var key := x.derive(secret);
    assert |LEGACY_KEY_ID| == 6;
    assert IsKeyOf(x, x.keyId(key), key, secrets);
    PreviousKeepOwnIds(x, map[x.keyId(key) := key][LEGACY_KEY_ID := key], previous, secrets);
    assert IsKeyOf(x, SecretId(x, secret), NewCipher(x, secret, previous).keys[SecretId(x, secret)], secrets);
  }

  lemma {:induction false} KeyUnderId(x: Crypto, keys: map<string, Key>, secret: string, secrets: set<string>)
    requires CryptoLaw(x) && NoCollision(x, secrets) && secret in secrets
    requires OwnIds(x, keys, secrets) && SecretId(x, secret) in keys
    ensures keys[SecretId(x, secret)] == x.derive(secret)
  {
    assert IsKeyOf(x, SecretId(x, secret), keys[SecretId(x, secret)], secrets);
  }

  /** A cipher knows the id of a secret exactly when it keeps the secret. */
  lemma {:induction false} KnowsWhatItKeeps(
    x: Crypto, secret: string, previous: seq<string>, kept: string, secrets: set<string>)
    requires CryptoLaw(x) && NoCollision(x, secrets) && DrawnFrom(x, previous, secrets)
    requires kept in secrets && secret in secrets
    ensures SecretId(x, kept) in NewCipher(x, secret, previous).keys <==> Keeps(x, secret, previous, kept)
  {
    hide KeptAmong;
    var key := x.derive(secret);
    assert |LEGACY_KEY_ID| == 6;
    KeptKeys(x, map[x.keyId(key) := key][LEGACY_KEY_ID := key], previous, kept, secrets);
    assert SecretId(x, secret) == SecretId(x, kept) <==> secret == kept;
  }

  // ---------------------------------------------------------------- encrypting and decrypting

  function NeedsRotation(c: Cipher, encoded: string): bool {
    match SplitKeyTag(encoded)
    case Untagged => true
    case Tagged(keyId, _) => keyId != c.currentKeyId
  }

  function Encrypt(x: Crypto, c: Cipher, plaintext: string, nonce: Option<string>): Option<string>
    requires c.currentKeyId in c.keys
  {
    match nonce
    case None => None
    case Some(n) => Some(c.currentKeyId + ":" + x.seal(c.keys[c.currentKeyId], plaintext, n))
  }

  function Decrypt(x: Crypto, c: Cipher, encoded: string): Option<string> {
    var (keyId, payload) :=
      match SplitKeyTag(encoded)
      case Untagged => (LEGACY_KEY_ID, encoded)
      case Tagged(id, rest) => (id, rest);
    if keyId in c.keys then x.open(c.keys[keyId], payload) else None
  }

  lemma {:induction false} EncryptedIsCurrent(x: Crypto, c: Cipher, plaintext: string, nonce: string)
    requires CryptoLaw(x) && Sound(x, c)
    ensures var encoded := Encrypt(x, c, plaintext, Some(nonce)).value;
            encoded != "" && Decrypt(x, c, encoded) == Some(plaintext) && !NeedsRotation(c, encoded)
  {
    var encoded := Encrypt(x, c, plaintext, Some(nonce)).value;
    TagRoundTrip(encoded, c.currentKeyId, x.seal(c.keys[c.currentKeyId], plaintext, nonce));
  }

  /** After the secret is changed, what the old cipher encrypted stays readable exactly when the
      old secret is still kept: it is the new one, or some previous secret trims to it. A secret
      with white space around it is therefore lost, since only previous secrets are trimmed. */
  lemma {:induction false} ReadableAfterChange(
    x: Crypto, oldSecret: string, oldPrevious: seq<string>, newSecret: string, newPrevious: seq<string>,
    secrets: set<string>, plaintext: string, nonce: string)
    requires CryptoLaw(x) && NoCollision(x, secrets) && DrawnFrom(x, oldPrevious, secrets) && DrawnFrom(x, newPrevious, secrets)
    requires oldSecret in secrets && newSecret in secrets
    ensures var encoded := Encrypt(x, NewCipher(x, oldSecret, oldPrevious), plaintext, Some(nonce)).value;
            Decrypt(x, NewCipher(x, newSecret, newPrevious), encoded)
            == if Keeps(x, newSecret, newPrevious, oldSecret) then Some(plaintext) else None
  {
    hide Keeps, NewCipher, Index, NoCollision, DrawnFrom, OwnIds;
    var c, d := NewCipher(x, oldSecret, oldPrevious), NewCipher(x, newSecret, newPrevious);
    CipherIsSound(x, oldSecret, oldPrevious, secrets);
    CipherIsSound(x, newSecret, newPrevious, secrets);
    KeyUnderId(x, c.keys, oldSecret, secrets);
    if SecretId(x, oldSecret) in d.keys {
      KeyUnderId(x, d.keys, oldSecret, secrets);
    }
    KnowsWhatItKeeps(x, newSecret, newPrevious, oldSecret, secrets);
    TagRoundTrip(Encrypt(x, c, plaintext, Some(nonce)).value, c.currentKeyId,
                 x.seal(c.keys[c.currentKeyId], plaintext, nonce));
  }

  /** Ciphertext needs no rotation exactly when it carries the current key's tag. */
  lemma {:induction false} CurrentExactly(x: Crypto, c: Cipher, encoded: string)
    requires CryptoLaw(x) && Sound(x, c)
    ensures !NeedsRotation(c, encoded) <==> exists payload :: encoded == c.currentKeyId + ":" + payload
  {
    if !NeedsRotation(c, encoded) {
      TagRoundTrip(encoded, c.currentKeyId, SplitKeyTag(encoded).payload);
    }
    if payload :| encoded == c.currentKeyId + ":" + payload {
      TagRoundTrip(encoded, c.currentKeyId, payload);
    }
  }

  /** Ciphertext of the time before the tags opens with the current key. */
  lemma {:induction false} UntaggedOpensWithTheCurrentKey(
      x: Crypto, secret: string, previous: seq<string>, plaintext: string, nonce: string)
    requires CryptoLaw(x)
    requires var sealed := x.seal(x.derive(secret), plaintext, nonce);
             forall id: string, payload :: |id| == 8 && ':' !in id ==> sealed != id + ":" + payload
    ensures Decrypt(x, NewCipher(x, secret, previous), x.seal(x.derive(secret), plaintext, nonce)) == Some(plaintext)
  {
    var sealed := x.seal(x.derive(secret), plaintext, nonce);
    match SplitKeyTag(sealed)
    case Tagged(id, payload) =>
      TagRoundTrip(sealed, id, payload);
      assert false;
    case Untagged =>
      hide SplitKeyTag;
      var key := x.derive(secret);
      assert |LEGACY_KEY_ID| == 6;
      LegacyStays(x, map[x.keyId(key) := key][LEGACY_KEY_ID := key], previous);
  }

  lemma {:induction false} LegacyStays(x: Crypto, keys: map<string, Key>, previous: seq<string>)
    requires CryptoLaw(x) && LEGACY_KEY_ID in keys
    ensures WithPrevious(x, keys, previous)[LEGACY_KEY_ID] == keys[LEGACY_KEY_ID]
    decreases |previous|
  {
    hide TrimSpace;
    assert |LEGACY_KEY_ID| == 6;
    if previous != [] {
      LegacyStays(x, keys, previous[..|previous| - 1]);
    }
  }
}
