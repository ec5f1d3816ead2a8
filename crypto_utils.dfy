/**
 * The credential codec of src/crypto-utils.ts.
 *
 * Simple mode stores `id + "," + password` as the Base64 of its UTF-8 bytes.
 * Advanced mode stores each field separately as the Base64 of its UTF-8 bytes combined,
 * byte by byte, with the repeating UTF-8 bytes of a key (`'default-key'` when none is given).
 * Neither mode authenticates anything: decoding with the wrong key yields other text.
 */
module CryptoUtils {
  import opened Wrappers
  import opened Bytes
  import Base64
  import Utf8
  import opened Text

  datatype DecryptedCredentials = DecryptedCredentials(id: string, password: string)

  datatype EncryptedCredentials = EncryptedCredentials(encryptedId: string, encryptedPassword: string)

  const DefaultKey: string := "default-key"

  const SimpleDecodeFailure: string := "Base64 디코딩 실패: "
  const FormatError: string := "잘못된 형식입니다. ID,PASSWORD 형태여야 합니다."
  const DecryptFailure: string := "복호화 실패: "

  /** Causes for input the strict decoders reject (Node's lenient decoders never report them). */
  const InvalidBase64: string := "invalid Base64"
  const InvalidUtf8: string := "invalid UTF-8"

  // ---------------------------------------------------------------- simple mode

  /** `encodeCredentialsSimple`: the Base64 of the UTF-8 bytes of `id,password`. */
  function EncodeCredentialsSimple(id: string, password: string): (encoded: string)
    ensures Base64.Decode(encoded) == Some(Utf8.Encode(id + [Comma] + password))
  {
    Base64.DecodeEncode(Utf8.Encode(id + [Comma] + password));
    Base64.Encode(Utf8.Encode(id + [Comma] + password))
  }

  /** `Buffer.from(encoded, 'base64').toString('utf8')`, read strictly. */
  function DecodedText(encoded: string): (r: Result<string, string>)
  {
    match Base64.Decode(encoded)
    case None => Err(InvalidBase64)
    case Some(bytes) =>
      match Utf8.Decode(bytes)
      case None => Err(InvalidUtf8)
      case Some(text) => Ok(text)
  }

  /**
   * `decodeCredentialsSimple`: the id is the text before the first comma and the password the text
   * between the first and the second comma; an empty id or password, or no comma at all, is an error.
   */
  function DecodeCredentialsSimple(encoded: string): (r: Result<DecryptedCredentials, string>)
    ensures r.Err? ==> SimpleDecodeFailure <= r.error
    ensures r.Ok? ==> r.value.id != [] && r.value.password != []
    ensures DecodedText(encoded).Ok? && CommaFree(DecodedText(encoded).value) ==> r == Err(SimpleDecodeFailure + FormatError)
    // once the text decodes, every rejection is the format message: no comma, or an empty id or password
    ensures DecodedText(encoded).Ok? && r.Err? ==> r == Err(SimpleDecodeFailure + FormatError)
    ensures DecodedText(encoded).Err? ==> r == Err(SimpleDecodeFailure + DecodedText(encoded).error)
  {
    match DecodedText(encoded)
    case Err(cause) => Err(SimpleDecodeFailure + cause)
    case Ok(text) =>
      var parts := Split(text);
      if parts[0] == [] || |parts| < 2 || parts[1] == [] then Err(SimpleDecodeFailure + FormatError)
      else Ok(DecryptedCredentials(parts[0], parts[1]))
  }

  /** `id` and `password` are the first two comma-separated fields of `text`, both non-empty; whatever follows a second comma is ignored. */
  predicate LeadingFields(text: string, id: string, password: string)
  {
    && id != [] && password != []
    && CommaFree(id) && CommaFree(password)
    && id + [Comma] + password <= text
    && (|text| == |id| + 1 + |password| || text[|id| + 1 + |password|] == Comma)
  }

  /** Simple decoding accepts a pair exactly when the pair is the leading fields of the decoded text. */
  lemma DecodeSimpleFields(encoded: string, text: string, id: string, password: string)
    requires DecodedText(encoded) == Ok(text)
    ensures DecodeCredentialsSimple(encoded) == Ok(DecryptedCredentials(id, password)) <==> LeadingFields(text, id, password)
  {
    if DecodeCredentialsSimple(encoded) == Ok(DecryptedCredentials(id, password)) {
      AcceptedAreLeading(text, id, password);
    }
    if LeadingFields(text, id, password) {
      LeadingAreAccepted(text, id, password);
    }
  }

  lemma AcceptedAreLeading(text: string, id: string, password: string)
    requires var parts := Split(text); |parts| >= 2 && parts[0] == id && parts[1] == password && id != [] && password != []
    ensures LeadingFields(text, id, password)
  {
    var parts := Split(text);
    SplitJoin(text);
    assert CommaFree(parts[0]) && CommaFree(parts[1]);
    var rest := parts[1..];
    assert Join(parts) == id + [Comma] + Join(rest);
    if |parts| == 2 {
      assert text == id + [Comma] + password;
    } else {
      assert Join(rest) == password + [Comma] + Join(rest[1..]);
      assert text == (id + [Comma] + password) + ([Comma] + Join(rest[1..]));
    }
  }

  lemma LeadingAreAccepted(text: string, id: string, password: string)
    requires LeadingFields(text, id, password)
    ensures var parts := Split(text); |parts| >= 2 && parts[0] == id && parts[1] == password
  {
    var n := |id| + 1 + |password|;
    assert text[..n] == id + [Comma] + password;
    if |text| == n {
      assert text == id + [Comma] + password;
      SplitAfter(id, password);
    } else {
      var more := text[n + 1..];
      assert text == id + [Comma] + (password + [Comma] + more);
      SplitAfter(id, password + [Comma] + more);
      SplitAfter(password, more);
    }
  }

  /** A non-empty id and password without commas survive simple encoding and decoding. */
  lemma SimpleRoundTrip(id: string, password: string)
    requires id != [] && password != [] && CommaFree(id) && CommaFree(password)
    ensures DecodeCredentialsSimple(EncodeCredentialsSimple(id, password)) == Ok(DecryptedCredentials(id, password))
  {
    var text := id + [Comma] + password;
    Utf8.DecodeEncode(text);
    DecodeSimpleFields(EncodeCredentialsSimple(id, password), text, id, password);
  }

  // ---------------------------------------------------------------- advanced mode

  /** The UTF-8 bytes of `'default-key'`, written out. */
  const DefaultKeyBytes: seq<Byte> := [0x64, 0x65, 0x66, 0x61, 0x75, 0x6C, 0x74, 0x2D, 0x6B, 0x65, 0x79]

  lemma DefaultKeyEncoding(key: string)
    requires key == DefaultKey
    ensures Utf8.Encode(key) == DefaultKeyBytes
  {
    assert forall i :: 0 <= i < |key| ==> key[i] as int == DefaultKeyBytes[i];
    Utf8.EncodeAscii(key);
  }

  /** The UTF-8 bytes of the key; an absent key means `'default-key'`. An empty key string stays empty. */
  function KeyBytes(secretKey: Option<string>): (key: seq<Byte>)
    ensures key == Utf8.Encode(if secretKey.Some? then secretKey.value else DefaultKey)
  {
    DefaultKeyEncoding(DefaultKey);
    if secretKey.Some? then Utf8.Encode(secretKey.value) else DefaultKeyBytes
  }

  /** `key[i % key.length]`; for an empty key that is `undefined`, which `^` treats as 0. */
  function KeyAt(key: seq<Byte>, i: nat): (r: Byte)
  {
    if |key| == 0 then 0 else key[i % |key|]
  }

  /** Every byte combined with the key byte at its position. */
  function XorStream(data: seq<Byte>, key: seq<Byte>): (r: seq<Byte>)
  {
    seq(|data|, i requires 0 <= i < |data| => Xor(data[i], KeyAt(key, i)))
  }

  /** Applying the key stream twice is the identity, for every key including the empty one. */
  lemma XorStreamCancels(data: seq<Byte>, key: seq<Byte>)
    ensures XorStream(XorStream(data, key), key) == data
  {
    var once := XorStream(data, key);
    forall i | 0 <= i < |data|
      ensures XorStream(once, key)[i] == data[i]
    {
      XorCancels(data[i], KeyAt(key, i));
    }
  }

  /** An empty key string combines every byte with `undefined`, that is with 0: the text is only Base64-encoded. */
  lemma EmptyKeyOnlyEncodes(text: string, key: string)
    requires key == []
    ensures Encrypted(text, Some(key)) == Base64.Encode(Utf8.Encode(text))
  {
    var data := Utf8.Encode(text);
    assert Utf8.Encode(key) == [];
    forall i | 0 <= i < |data|
      ensures XorStream(data, [])[i] == data[i]
    {
      XorZero(data[i]);
    }
    assert XorStream(data, []) == data;
  }

  /** What `encrypt(text, secretKey)` returns. */
  function Encrypted(text: string, secretKey: Option<string>): (r: string)
  {
    Base64.Encode(XorStream(Utf8.Encode(text), KeyBytes(secretKey)))
  }

  /** What `decrypt(encryptedText, secretKey)` returns or throws. */
  function Decrypted(encryptedText: string, secretKey: Option<string>): (r: Result<string, string>)
  {
    match Base64.Decode(encryptedText)
    case None => Err(DecryptFailure + InvalidBase64)
    case Some(data) =>
      match Utf8.Decode(XorStream(data, KeyBytes(secretKey)))
      case None => Err(DecryptFailure + InvalidUtf8)
      case Some(text) => Ok(text)
  }

  /** The loop of `encrypt` and `decrypt`: a fresh buffer of the data's length, filled with `data[i] ^ key[i % key.length]`. */
  method XorBuffer(data: seq<Byte>, key: seq<Byte>) returns (out: seq<Byte>)
    ensures out == XorStream(data, key)
  {
    var buffer := new Byte[|data|];
    for i := 0 to |data|
      invariant buffer[..i] == XorStream(data, key)[..i]
    {
      buffer[i] := Xor(data[i], KeyAt(key, i));
      assert buffer[..i + 1] == buffer[..i] + [XorStream(data, key)[i]];
    }
    assert buffer[..] == buffer[..|data|];
    out := buffer[..];
  }

  /** `encrypt`: combines the text's UTF-8 bytes with the key, then Base64-encodes them. */
  method Encrypt(text: string, secretKey: Option<string>) returns (encrypted: string)
    ensures encrypted == Encrypted(text, secretKey)
  {
    var key := KeyBytes(secretKey);
    var data := Utf8.Encode(text);
    var buffer := XorBuffer(data, key);
    encrypted := Base64.Encode(buffer);
  }

  /** `decrypt`: Base64-decodes, combines every byte with the key the same way, and reads the bytes as UTF-8. */
  method Decrypt(encryptedText: string, secretKey: Option<string>) returns (r: Result<string, string>)
    ensures r == Decrypted(encryptedText, secretKey)
  {
    var key := KeyBytes(secretKey);
    var decoded := Base64.Decode(encryptedText);
    if decoded.None? {
      return Err(DecryptFailure + InvalidBase64);
    }
    var buffer := XorBuffer(decoded.value, key);
    var text := Utf8.Decode(buffer);
    if text.None? {
      return Err(DecryptFailure + InvalidUtf8);
    }
    r := Ok(text.value);
  }

  /** Before Base64, encryption has exactly the text's UTF-8 length, and byte `i` is text byte `i` combined with key byte `i mod |key|`. */
  lemma EncryptedBytes(text: string, secretKey: Option<string>)
    ensures Base64.Decode(Encrypted(text, secretKey)).Some?
    ensures var c := Base64.Decode(Encrypted(text, secretKey)).value;
      var data := Utf8.Encode(text);
      var key := KeyBytes(secretKey);
      && |c| == |data|
      && forall i :: 0 <= i < |c| ==> c[i] == Xor(data[i], if |key| == 0 then 0 else key[i % |key|])
  {
    Base64.DecodeEncode(XorStream(Utf8.Encode(text), KeyBytes(secretKey)));
  }

  /** Decrypting with the key used to encrypt (or with no key both times) gives back the text. */
  lemma DecryptEncrypt(text: string, secretKey: Option<string>)
    ensures Decrypted(Encrypted(text, secretKey), secretKey) == Ok(text)
  {
    var data := Utf8.Encode(text);
    var key := KeyBytes(secretKey);
    Base64.DecodeEncode(XorStream(data, key));
    XorStreamCancels(data, key);
    Utf8.DecodeEncode(text);
  }

  /**
   * No integrity check: decrypting with a key whose bytes differ from the encryption key's at some
   * position the text covers never yields the original text (it yields other text, or undecodable bytes).
   */
  lemma WrongKeyGarbles(text: string, k1: Option<string>, k2: Option<string>, i: nat)
    requires i < |Utf8.Encode(text)|
    requires KeyAt(KeyBytes(k1), i) != KeyAt(KeyBytes(k2), i)
    ensures Decrypted(Encrypted(text, k1), k2) != Ok(text)
  {
    var data := Utf8.Encode(text);
    var c := XorStream(data, KeyBytes(k1));
    Base64.DecodeEncode(c);
    var back := XorStream(c, KeyBytes(k2));
    XorOtherKeyDiffers(data[i], KeyAt(KeyBytes(k1), i), KeyAt(KeyBytes(k2), i));
    assert back[i] != data[i];
    if Decrypted(Encrypted(text, k1), k2) == Ok(text) {
      Utf8.EncodeDecode(back);
      assert false;
    }
  }

  /** `encryptCredentials`: the same key applied to each field on its own; each field decrypts back by itself. */
  function EncryptCredentials(id: string, password: string, secretKey: Option<string>): (r: EncryptedCredentials)
    ensures Decrypted(r.encryptedId, secretKey) == Ok(id)
    ensures Decrypted(r.encryptedPassword, secretKey) == Ok(password)
  {
    DecryptEncrypt(id, secretKey);
    DecryptEncrypt(password, secretKey);
    EncryptedCredentials(Encrypted(id, secretKey), Encrypted(password, secretKey))
  }

  /** `decryptCredentials`: decrypts the id, then the password, with the same key; the first failure is the one reported. */
  function DecryptCredentials(encryptedId: string, encryptedPassword: string, secretKey: Option<string>): (r: Result<DecryptedCredentials, string>)
    ensures r.Ok? <==> Decrypted(encryptedId, secretKey).Ok? && Decrypted(encryptedPassword, secretKey).Ok?
    ensures r.Ok? ==> Ok(r.value.id) == Decrypted(encryptedId, secretKey) && Ok(r.value.password) == Decrypted(encryptedPassword, secretKey)
    ensures r.Err? ==> DecryptFailure <= r.error
    ensures Decrypted(encryptedId, secretKey).Err? ==> r.error == Decrypted(encryptedId, secretKey).error
  {
    match Decrypted(encryptedId, secretKey)
    case Err(cause) => Err(cause)
    case Ok(id) =>
      match Decrypted(encryptedPassword, secretKey)
      case Err(cause) => Err(cause)
      case Ok(password) => Ok(DecryptedCredentials(id, password))
  }

  /** Both fields come back from `encryptCredentials` followed by `decryptCredentials` with the same key. */
  lemma CredentialsRoundTrip(id: string, password: string, secretKey: Option<string>)
    ensures var e := EncryptCredentials(id, password, secretKey);
      DecryptCredentials(e.encryptedId, e.encryptedPassword, secretKey) == Ok(DecryptedCredentials(id, password))
  {
  }

  /** Decrypting a non-empty string that decrypts at all gives non-empty text. */
  lemma DecryptedNonEmpty(encryptedText: string, secretKey: Option<string>)
    requires encryptedText != [] && Decrypted(encryptedText, secretKey).Ok?
    ensures Decrypted(encryptedText, secretKey).value != []
  {
    Base64.DecodeNonEmpty(encryptedText);
    var data := Base64.Decode(encryptedText).value;
    assert |XorStream(data, KeyBytes(secretKey))| == |data|;
    Utf8.DecodeNonEmpty(XorStream(data, KeyBytes(secretKey)));
  }
}
