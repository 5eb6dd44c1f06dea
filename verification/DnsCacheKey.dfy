/**
 * The key of a cached response in the memory store, and the name it gets in the cache file: the
 * transport's tag, the subnet's text and the environment's base-36 digits, joined by separators.
 */
module DnsCacheKey {
  import opened Options

  const SUBNET_MARK: char := 0 as char
  const ENVIRONMENT_MARK: char := 1 as char

  /** Subnets are given by their text. */
  datatype CacheKey = CacheKey(
    name: string, qtype: nat, qclass: nat, transport: string, subnet: Option<string>, environment: nat)

  datatype FileKey = FileKey(transportName: string, name: string, qtype: nat)

  function Digit(d: nat): char
    requires d < 36
  {
    if d < 10 then ('0' as int + d) as char else ('a' as int + d - 10) as char
  }

  function Digits(n: nat): string {
    if n < 36 then [Digit(n)] else Digits(n / 36) + [Digit(n % 36)]
  }

  function PersistentName(k: CacheKey): string {
    k.transport
    + (if k.subnet.Some? then [SUBNET_MARK] + k.subnet.value else [])
    + (if k.environment != 0 then [ENVIRONMENT_MARK] + Digits(k.environment) else [])
  }

  function InFile(k: CacheKey): FileKey {
    FileKey(PersistentName(k), k.name, k.qtype)
  }

  predicate IsMark(c: char) {
    c == SUBNET_MARK || c == ENVIRONMENT_MARK
  }

  /** No separator in the text. */
  predicate Plain(s: string) {
    forall i | 0 <= i < |s| :: !IsMark(s[i])
  }

  predicate PlainKey(k: CacheKey) {
    Plain(k.transport) && (k.subnet.Some? ==> Plain(k.subnet.value))
  }

  // ---- Reading a name back ----

  /** The text before the first separator. */
  function Head(s: string): string {
    if s == [] || IsMark(s[0]) then [] else [s[0]] + Head(s[1..])
  }

  /** What is left of a name behind a plain text. */
  function Tail(s: string): string {
    if s == [] || IsMark(s[0]) then s else Tail(s[1..])
  }

  lemma {:induction false} SplitAtMark(a: string, rest: string)
    requires Plain(a) && (rest == [] || IsMark(rest[0]))
    ensures Head(a + rest) == a && Tail(a + rest) == rest
  {
    if a == [] {
      assert a + rest == rest;
    } else {
      assert (a + rest)[1..] == a[1..] + rest;
      SplitAtMark(a[1..], rest);
    }
  }

  function DigitValue(c: char): nat {
    if '0' <= c <= '9' then c as int - '0' as int else if 'a' <= c then c as int - 'a' as int + 10 else 0
  }

  function Number(s: string): nat {
    if s == [] then 0 else 36 * Number(s[..|s| - 1]) + DigitValue(s[|s| - 1])
  }

  lemma {:induction false} NumberOfDigits(n: nat)
    ensures Number(Digits(n)) == n && Plain(Digits(n))
  {
    if n >= 36 {
      NumberOfDigits(n / 36);
      var s := Digits(n);
      assert s[..|s| - 1] == Digits(n / 36) && s[|s| - 1] == Digit(n % 36);
    } else {
      assert Digits(n)[..0] == [];
    }
  }

  /** What a name says about its key. */
  function ReadName(s: string): (string, Option<string>, nat) {
    var rest := Tail(s);
    var subnet := if rest != [] && rest[0] == SUBNET_MARK then Some(Head(rest[1..])) else None;
    var environment := if subnet.Some? then Tail(rest[1..]) else rest;
    (Head(s), subnet, if environment == [] then 0 else Number(environment[1..]))
  }

  lemma NameIsReadBack(k: CacheKey)
    requires PlainKey(k)
    ensures ReadName(PersistentName(k)) == (k.transport, k.subnet, k.environment)
  {
    var subnet := if k.subnet.Some? then [SUBNET_MARK] + k.subnet.value else [];
    var environment := if k.environment != 0 then [ENVIRONMENT_MARK] + Digits(k.environment) else [];
    assert PersistentName(k) == k.transport + (subnet + environment);
    SplitAtMark(k.transport, subnet + environment);
    NumberOfDigits(k.environment);
    if k.environment != 0 {
      assert environment[1..] == Digits(k.environment);
    }
    if k.subnet.Some? {
      assert (subnet + environment)[1..] == k.subnet.value + environment;
      SplitAtMark(k.subnet.value, environment);
    } else {
      assert subnet + environment == environment;
    }
  }

  /**
   * For tags and subnets without separators two keys share an entry of the cache file exactly when
   * they are equal but for the class of the question.
   */
  lemma FileKeysForgetTheClass(a: CacheKey, b: CacheKey)
    requires PlainKey(a) && PlainKey(b)
    ensures InFile(a) == InFile(b) <==> a.(qclass := b.qclass) == b
  {
    NameIsReadBack(a);
    NameIsReadBack(b);
  }

  /** With a separator in a tag different keys can share an entry. */
  lemma MarkedTagsCollide(name: string, qtype: nat, qclass: nat, tag: string, subnet: string)
    ensures var a := CacheKey(name, qtype, qclass, tag + [SUBNET_MARK] + subnet, None, 0);
      var b := CacheKey(name, qtype, qclass, tag, Some(subnet), 0);
      a != b && InFile(a) == InFile(b)
  {
    assert tag + ([SUBNET_MARK] + subnet) == tag + [SUBNET_MARK] + subnet;
  }
}
