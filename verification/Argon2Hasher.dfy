/** The PHC strings of internal/infrastructure/security/argon2_hasher.go; Argon2 itself is an arbitrary function. */
module Argon2Hasher {
  import opened Common
  import opened Encodings

  /** password, salt, iterations, memory, parallelism, key length. */
  type KeyFunction = (string, seq<byte>, nat, nat, nat, nat) -> seq<byte>

  const VERSION: nat := 19
  const MEMORY: nat := 64 * 1024
  const ITERATIONS: nat := 3
  const PARALLELISM: nat := 4
  const KEY_LEN: nat := 32

  const UINT32: nat := 0x1_0000_0000
  const UINT8: nat := 0x100

  /** What a PHC string carries. */
  datatype Phc = Phc(memory: nat, iterations: nat, parallelism: nat, salt: seq<byte>, key: seq<byte>)

  predicate InRange(p: Phc) { p.memory < UINT32 && p.iterations < UINT32 && p.parallelism < UINT8 }

  function PrintParams(p: Phc): string {
    "m=" + Decimal(p.memory) + ",t=" + Decimal(p.iterations) + ",p=" + Decimal(p.parallelism)
  }

  function PrintVersion(version: nat): string { "v=" + Decimal(version) }

  function Print(version: nat, p: Phc): string {
    "$argon2id$" + PrintVersion(version) + "$" + PrintParams(p) + "$" + Encode(p.salt) + "$" + Encode(p.key)
  }

  /** `Sscanf` with "m=%d,t=%d,p=%d"; what follows the last number is ignored. */
  function ScanParams(s: string): Option<(nat, nat, nat)> {
    match ScanField(s, "m=", UINT32)
    case None => None
    case Some((memory, s1)) =>
      match ScanField(s1, ",t=", UINT32)
      case None => None
      case Some((iterations, s2)) =>
        match ScanField(s2, ",p=", UINT8)
        case None => None
        case Some((parallelism, _)) => Some((memory, iterations, parallelism))
  }

  function Read(s: string): Option<Phc> {
    var parts := Split(s, '$');
    if |parts| != 6 then None
    else
      match (ScanParams(parts[3]), Decode(parts[4]), Decode(parts[5]))
      case (Some((memory, iterations, parallelism)), Some(salt), Some(key)) =>
        Some(Phc(memory, iterations, parallelism, salt, key))
      case _ => None
  }

  function Hash(f: KeyFunction, password: string, salt: seq<byte>): string {
    Print(VERSION,
      Phc(MEMORY, ITERATIONS, PARALLELISM, salt, f(password, salt, ITERATIONS, MEMORY, PARALLELISM, KEY_LEN)))
  }

  /** What the library's key derivation accepts; with less it panics. */
  predicate Derivable(p: Phc) { p.iterations >= 1 && p.parallelism >= 1 && p.key != [] }

  datatype Verdict = Accepted | Refused | Panicked

  function Verify(f: KeyFunction, password: string, hash: string): Verdict {
    match Read(hash)
    case None => Refused
    case Some(p) =>
      if !Derivable(p) then Panicked
      else if f(password, p.salt, p.iterations, p.memory, p.parallelism, |p.key|) == p.key then Accepted
      else Refused
  }

  lemma ScanParamsRoundTrip(p: Phc)
    ensures ScanParams(PrintParams(p))
      == if InRange(p) then Some((p.memory, p.iterations, p.parallelism)) else None
  {
    var s2 := ",p=" + Decimal(p.parallelism) + "";
    var s1 := ",t=" + Decimal(p.iterations) + s2;
    assert PrintParams(p) == "m=" + Decimal(p.memory) + s1;
    ScanFieldPrinted("m=", p.memory, s1, UINT32);
    ScanFieldPrinted(",t=", p.iterations, s2, UINT32);
    ScanFieldPrinted(",p=", p.parallelism, "", UINT8);
  }

  lemma NoDollar(p: Phc)
    ensures '$' !in PrintParams(p) && '$' !in Encode(p.salt) && '$' !in Encode(p.key)
  {
    EncodedChars(p.salt);
    EncodedChars(p.key);
    assert !IsDigit('$') && !Base64Char('$');
  }

  lemma JoinCons(part: string, parts: seq<string>)
    requires parts != []
    ensures Join([part] + parts, '$') == part + "$" + Join(parts, '$')
  {
    assert ([part] + parts)[1..] == parts;
  }

  lemma JoinThree(a: string, b: string, c: string)
    ensures Join([a, b, c], '$') == a + "$" + b + "$" + c
  {
    JoinCons(b, [c]);
    JoinCons(a, [b, c]);
    assert [a] + [b, c] == [a, b, c] && [b] + [c] == [b, c];
  }

  lemma PrintIsJoin(v: string, params: string, salt: string, key: string)
    ensures Join(["", "argon2id", v, params, salt, key], '$')
      == "$argon2id$" + v + "$" + params + "$" + salt + "$" + key
  {
    JoinThree(params, salt, key);
    JoinCons(v, [params, salt, key]);
    JoinCons("argon2id", [v, params, salt, key]);
    JoinCons("", ["argon2id", v, params, salt, key]);
    assert [v] + [params, salt, key] == [v, params, salt, key];
    assert ["argon2id"] + [v, params, salt, key] == ["argon2id", v, params, salt, key];
    assert [""] + ["argon2id", v, params, salt, key] == ["", "argon2id", v, params, salt, key];
  }

  lemma SixFields(v: string, params: string, salt: string, key: string)
    requires '$' !in v && '$' !in params && '$' !in salt && '$' !in key
    ensures Split("$argon2id$" + v + "$" + params + "$" + salt + "$" + key, '$')
      == ["", "argon2id", v, params, salt, key]
  {
    PrintIsJoin(v, params, salt, key);
    SplitJoin(["", "argon2id", v, params, salt, key], '$');
  }

  lemma PrintSplits(version: nat, p: Phc)
    ensures Split(Print(version, p), '$')
      == ["", "argon2id", PrintVersion(version), PrintParams(p), Encode(p.salt), Encode(p.key)]
  {
    NoDollar(p);
    assert '$' !in PrintVersion(version) by {
      assert !IsDigit('$');
    }
    SixFields(PrintVersion(version), PrintParams(p), Encode(p.salt), Encode(p.key));
  }

  /**
   * For all parameters, salts and keys, reading the printed string gives exactly what was printed, if memory and
   * iterations fit 32 bits and the lanes fit eight, and an error if they do not.
   */
  lemma PhcRoundTrip(version: nat, p: Phc)
    ensures Read(Print(version, p))
      == if p.memory <= 4294967295 && p.iterations <= 4294967295 && p.parallelism <= 255 then Some(p) else None
  {
    PrintSplits(version, p);
    ScanParamsRoundTrip(p);
    DecodeRoundTrip(p.salt);
    DecodeRoundTrip(p.key);
  }

  /** Fields in any number but six are not read. */
  lemma ReadSixFields(parts: seq<string>)
    requires parts != [] && forall part :: part in parts ==> '$' !in part
    ensures |parts| != 6 ==> Read(Join(parts, '$')) == None
  {
    SplitJoin(parts, '$');
  }

  /** Of six, the last three are read: neither the algorithm's name nor its version matters. */
  lemma ReadIgnoresLabel(a: string, name: string, version: string, p: Phc)
    requires InRange(p) && '$' !in a && '$' !in name && '$' !in version
    ensures Read(Join([a, name, version, PrintParams(p), Encode(p.salt), Encode(p.key)], '$')) == Some(p)
  {
    NoDollar(p);
    SplitJoin([a, name, version, PrintParams(p), Encode(p.salt), Encode(p.key)], '$');
    ScanParamsRoundTrip(p);
    DecodeRoundTrip(p.salt);
    DecodeRoundTrip(p.key);
  }

  /**
   * A printed string verifies exactly the passwords that the key function maps to the printed key, and refuses the
   * others; unless it was printed with no iterations, no lanes or no key, when there is no answer to any password.
   */
  lemma VerifyPrinted(f: KeyFunction, version: nat, p: Phc, password: string)
    requires InRange(p)
    ensures Verify(f, password, Print(version, p)) == Panicked
      <==> p.iterations == 0 || p.parallelism == 0 || p.key == []
    ensures Verify(f, password, Print(version, p)) == Accepted
      <==> Derivable(p) && f(password, p.salt, p.iterations, p.memory, p.parallelism, |p.key|) == p.key
  {
    PhcRoundTrip(version, p);
  }

  lemma Cost()
    ensures Decimal(19) == "19" && Decimal(65536) == "65536" && Decimal(3) == "3" && Decimal(4) == "4"
  {
    DecimalPlaces(1, 9);
    DecimalPlaces(6553, 6);
    DecimalPlaces(655, 3);
    DecimalPlaces(65, 5);
    DecimalPlaces(6, 5);
    DecimalPlaces(0, 1);
    DecimalPlaces(0, 6);
    DecimalPlaces(0, 3);
    DecimalPlaces(0, 4);
  }

  /** What is stored for a password: Argon2id with 64 MiB, three iterations, four lanes and a key of 32 bytes. */
  lemma HashText(f: KeyFunction, password: string, salt: seq<byte>)
    ensures Hash(f, password, salt)
      == "$argon2id$v=19$m=65536,t=3,p=4$" + Encode(salt) + "$" + Encode(f(password, salt, 3, 65536, 4, 32))
  {
    var p := Phc(65536, 3, 4, salt, f(password, salt, 3, 65536, 4, 32));
    assert PrintVersion(19) == "v=19" && PrintParams(p) == "m=65536,t=3,p=4" by { Cost(); }
    assert "$argon2id$" + "v=19" + "$" + "m=65536,t=3,p=4" + "$" == "$argon2id$v=19$m=65536,t=3,p=4$";
    assert Hash(f, password, salt) == Print(19, p);
  }

  /**
   * Hashing and verifying: q is accepted for the hash of p exactly when the key function gives both the same key, and
   * refused otherwise. In particular every password verifies against its own hash.
   */
  lemma VerifyHash(f: KeyFunction, p: string, q: string, salt: seq<byte>)
    requires |f(p, salt, ITERATIONS, MEMORY, PARALLELISM, KEY_LEN)| == KEY_LEN
    ensures Verify(f, q, Hash(f, p, salt))
      == if f(q, salt, ITERATIONS, MEMORY, PARALLELISM, KEY_LEN) == f(p, salt, ITERATIONS, MEMORY, PARALLELISM, KEY_LEN)
         then Accepted else Refused
    ensures Verify(f, p, Hash(f, p, salt)) == Accepted
  {
    var phc := Phc(MEMORY, ITERATIONS, PARALLELISM, salt, f(p, salt, ITERATIONS, MEMORY, PARALLELISM, KEY_LEN));
    VerifyPrinted(f, VERSION, phc, q);
    VerifyPrinted(f, VERSION, phc, p);
  }

  /** Two different strings are printed for different contents: nothing printed is lost. */
  lemma PrintInjective(version: nat, p: Phc, q: Phc)
    requires InRange(p) && InRange(q) && Print(version, p) == Print(version, q)
    ensures p == q
  {
    PhcRoundTrip(version, p);
    PhcRoundTrip(version, q);
  }
}
