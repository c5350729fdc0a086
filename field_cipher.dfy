/**
 * Field-level encryption of personal data (backend/src/utils/encryptor.ts).
 *
 * AES-256-GCM itself is library code and is kept abstract: an `Aead` is a
 * pair of functions, and `Correct` is the property an authenticated cipher
 * promises (the ciphertext is as long as the plaintext, the tag is 16
 * bytes, and opening what was sealed gives the plaintext back). Lemmas
 * that need it take it as a hypothesis. The stored format,
 * hex(iv):hex(ciphertext):hex(tag), and the lenient fallbacks of
 * `decrypt` are modelled exactly.
 */
module FieldCipher {
  import opened Common
  import opened Utf8
  import Hex

  type Key = k: Bytes | |k| == 32 witness seq(32, i => 0 as byte)

  /** `crypto.randomBytes(12)`: a fresh 96-bit nonce for each call. */
  type Iv = b: Bytes | |b| == 12 witness seq(12, i => 0 as byte)

  const KEY_LENGTH_ERROR: string := "ENCRYPTION_KEY must be 32 bytes base64 encoded"

  /**
   * Module initialisation: the base64-decoded ENCRYPTION_KEY becomes the
   * key only when it is exactly 32 bytes; otherwise loading the module throws.
   */
  function LoadKey(decoded: Bytes): (r: Result<Key, string>)
    ensures r.Ok? <==> |decoded| == 32
    ensures r.Ok? ==> r.value == decoded
    ensures r.Err? ==> r.error == KEY_LENGTH_ERROR
  {
    if |decoded| == 32 then Ok(decoded) else Err(KEY_LENGTH_ERROR)
  }

  /**
   * The cipher: `seal(key, iv, plaintext)` gives (ciphertext, tag);
   * `open(key, iv, ciphertext, tag)` gives the plaintext or the message the
   * library throws (a bad IV or tag length, a failed authentication).
   */
  datatype Aead = Aead(
    seal: (Key, Bytes, Bytes) -> (Bytes, Bytes),
    open: (Key, Bytes, Bytes, Bytes) -> Result<Bytes, string>)

  ghost predicate Correct(aead: Aead)
  {
    forall key: Key, iv: Bytes, plain: Bytes ::
      var sealed := aead.seal(key, iv, plain);
      |sealed.0| == |plain| && |sealed.1| == 16 && aead.open(key, iv, sealed.0, sealed.1) == Ok(plain)
  }

  /** The module-level cipher object: the algorithm and the loaded key. */
  datatype Cipher = Cipher(aead: Aead, key: Key)

  /** `encrypt(text)` with the nonce `iv` that `crypto.randomBytes(12)` returned. */
  function Encrypt(c: Cipher, iv: Iv, text: string): string
  {
    var sealed := c.aead.seal(c.key, iv, Utf8.Encode(text));
    Join([Hex.Encode(iv), Hex.Encode(sealed.0), Hex.Encode(sealed.1)], ':')
  }

  /** The k-th element of a destructured `split` result, `undefined` read as "". */
  function Field(parts: seq<string>, k: nat): string
  {
    if k < |parts| then parts[k] else ""
  }

  /**
   * `decrypt(hash)`: "" for a null, undefined or empty input and for an
   * input whose first three `:`-separated fields are not all non-empty;
   * otherwise the decoded plaintext, or `Err` with the message the
   * cipher throws.
   */
  function Decrypt(c: Cipher, hash: Option<string>): Result<string, string>
  {
    if hash.None? || hash.value == "" then Ok("")
    else
      var parts := Split(hash.value, ':');
      var ivHex, ctHex, tagHex := Field(parts, 0), Field(parts, 1), Field(parts, 2);
      if ivHex == "" || ctHex == "" || tagHex == "" then Ok("")
      else
        match c.aead.open(c.key, Hex.Decode(ivHex), Hex.Decode(ctHex), Hex.Decode(tagHex))
        case Ok(plain) => Ok(Utf8.Decode(plain))
        case Err(message) => Err(message)
  }

  /** null, undefined and "" decrypt to "". */
  lemma DecryptAbsent(c: Cipher)
    ensures Decrypt(c, None) == Ok("")
    ensures Decrypt(c, Some("")) == Ok("")
  {
  }

  /** A missing or empty iv, ciphertext or tag field makes `decrypt` return "" without throwing. */
  lemma DecryptMissingField(c: Cipher, h: string)
    requires var parts := Split(h, ':');
      |parts| < 3 || parts[0] == "" || parts[1] == "" || parts[2] == ""
    ensures Decrypt(c, Some(h)) == Ok("")
  {
  }

  /** A stored plaintext without `:` (an e-mail address, say) decrypts to "". */
  lemma DecryptPlaintext(c: Cipher, h: string)
    requires ':' !in h
    ensures Decrypt(c, Some(h)) == Ok("")
  {
    assert Split(h, ':') == [h];
  }

  /** The three fields `encrypt` joins, split apart again. */
  lemma EncryptSplits(c: Cipher, iv: Iv, text: string)
    ensures var sealed := c.aead.seal(c.key, iv, Utf8.Encode(text));
      Split(Encrypt(c, iv, text), ':') == [Hex.Encode(iv), Hex.Encode(sealed.0), Hex.Encode(sealed.1)]
  {
    var sealed := c.aead.seal(c.key, iv, Utf8.Encode(text));
    var fields := [Hex.Encode(iv), Hex.Encode(sealed.0), Hex.Encode(sealed.1)];
    Hex.EncodeHasNoColon(iv);
    Hex.EncodeHasNoColon(sealed.0);
    Hex.EncodeHasNoColon(sealed.1);
    SplitJoin(fields, ':');
  }

  /**
   * `encrypt` writes exactly three `:`-separated fields: the 24-digit
   * nonce, the ciphertext (two digits per UTF-8 byte) and the 32-digit tag.
   */
  lemma EncryptFields(c: Cipher, iv: Iv, text: string)
    requires Correct(c.aead)
    ensures var parts := Split(Encrypt(c, iv, text), ':');
      && |parts| == 3
      && parts[0] == Hex.Encode(iv) && |parts[0]| == 24
      && |parts[1]| == 2 * |Utf8.Encode(text)|
      && |parts[2]| == 32
  {
    EncryptSplits(c, iv, text);
  }

  /** A ciphertext always contains the separator, so it never equals a text without one. */
  lemma EncryptHasColon(c: Cipher, iv: Iv, text: string)
    requires Correct(c.aead)
    ensures ':' in Encrypt(c, iv, text)
  {
    EncryptFields(c, iv, text);
    SplitWithoutSeparator(Encrypt(c, iv, text), ':');
  }

  /** `decrypt` of three non-empty fields: the hex-decoded parts go to `open`. */
  lemma DecryptThreeFields(c: Cipher, h: string, ivHex: string, ctHex: string, tagHex: string)
    requires Split(h, ':') == [ivHex, ctHex, tagHex]
    requires ivHex != "" && ctHex != "" && tagHex != ""
    ensures Decrypt(c, Some(h))
         == match c.aead.open(c.key, Hex.Decode(ivHex), Hex.Decode(ctHex), Hex.Decode(tagHex))
            case Ok(plain) => Ok(Utf8.Decode(plain))
            case Err(message) => Err(message)
  {
    SplitWithoutSeparator(h, ':');
    var parts := Split(h, ':');
    assert Field(parts, 0) == ivHex && Field(parts, 1) == ctHex && Field(parts, 2) == tagHex;
  }

  /**
   * Round trip: `decrypt(encrypt(x)) == x` for every string of Unicode
   * scalar values, the empty one included.
   */
  lemma DecryptEncrypt(c: Cipher, iv: Iv, text: string)
    requires Correct(c.aead)
    ensures Decrypt(c, Some(Encrypt(c, iv, text))) == Ok(text)
  {
    var h := Encrypt(c, iv, text);
    var plain := Utf8.Encode(text);
    var sealed := c.aead.seal(c.key, iv, plain);
    EncryptSplits(c, iv, text);
    Utf8.EncodeEmpty(text);
    if text == [] {
      DecryptMissingField(c, h);
    } else {
      DecryptThreeFields(c, h, Hex.Encode(iv), Hex.Encode(sealed.0), Hex.Encode(sealed.1));
      Hex.DecodeEncode(iv);
      Hex.DecodeEncode(sealed.0);
      Hex.DecodeEncode(sealed.1);
      Utf8.DecodeEncode(text);
    }
  }

  /** Two encryptions under different nonces differ, yet (by `DecryptEncrypt`) both decrypt to the text. */
  lemma EncryptDependsOnNonce(c: Cipher, iv1: Iv, iv2: Iv, text: string)
    requires Correct(c.aead)
    requires iv1 != iv2
    ensures Encrypt(c, iv1, text) != Encrypt(c, iv2, text)
  {
    EncryptFields(c, iv1, text);
    EncryptFields(c, iv2, text);
    Hex.DecodeEncode(iv1);
    Hex.DecodeEncode(iv2);
  }

  /** Fields after the third `:` are ignored by `decrypt`. */
  lemma DecryptIgnoresExtraFields(c: Cipher, h: string, extra: string)
    requires |Split(h, ':')| >= 3
    ensures Decrypt(c, Some(h + [':'] + extra)) == Decrypt(c, Some(h))
  {
    SplitWithoutSeparator(h, ':');
    SplitAppend(h, extra, ':');
    var parts, all := Split(h, ':'), Split(h + [':'] + extra, ':');
    assert all == parts + Split(extra, ':');
    assert Field(all, 0) == Field(parts, 0) && Field(all, 1) == Field(parts, 1) && Field(all, 2) == Field(parts, 2);
  }
}
