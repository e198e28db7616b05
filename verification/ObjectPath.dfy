/**
 Object paths: an id printed in decimal at the end of a path, and read back.
 */
module ObjectPath {
  import opened Wrappers

  // ObjectId{} is 0 and no object has it.
  type ObjectId = nat

  const Invalid: ObjectId := 0
  const Limit: nat := 0x1_0000_0000_0000_0000
  const Root := "/org/librescrs/Agent"

  predicate IsDigit(c: char) { '0' <= c <= '9' }

  function DigitOf(c: char): nat
    requires IsDigit(c)
  {
    (c - '0') as nat
  }

  predicate AllDigits(s: string) {
    forall i :: 0 <= i < |s| ==> IsDigit(s[i])
  }

  // std::to_string
  function Decimal(n: nat): string {
    (if n < 10 then [] else Decimal(n / 10)) + ['0' + (n % 10) as char]
  }

  // The number a row of digits is.
  function Value(s: string): nat
    requires AllDigits(s)
  {
    if s == [] then 0 else 10 * Value(s[..|s| - 1]) + DigitOf(s[|s| - 1])
  }

  predicate SlashFree(s: string) {
    forall i :: 0 <= i < |s| ==> s[i] != '/'
  }

  // agentObjectPath
  function Print(kind: string, id: ObjectId): string {
    Root + "/" + kind + "/" + Decimal(id)
  }

  // rfind('/'): the last slash, or -1.
  function LastSlash(path: string): (at: int)
    ensures -1 <= at < |path|
    ensures at >= 0 ==> path[at] == '/'
    ensures SlashFree(path[at + 1..])
  {
    if path == [] then -1
    else if path[|path| - 1] == '/' then |path| - 1
    else
      assert path[..|path| - 1] + [path[|path| - 1]] == path;
      LastSlash(path[..|path| - 1])
  }

  datatype FromChars = FromChars(value: nat, consumed: nat, ok: bool)

  function DigitPrefix(s: string): (n: nat)
    ensures n <= |s| && AllDigits(s[..n]) && (n < |s| ==> !IsDigit(s[n]))
  {
    if s == [] || !IsDigit(s[0]) then 0
    else
      var n := 1 + DigitPrefix(s[1..]);
      assert forall i :: 1 <= i < n ==> s[i] == s[1..][i - 1];
      n
  }

  // std::from_chars for an unsigned 64-bit target: the longest run of digits,
  // refused when there is none or it does not fit.
  function ReadChars(s: string): FromChars {
    var n := DigitPrefix(s);
    if n == 0 then FromChars(0, 0, false)
    else if Value(s[..n]) >= Limit then FromChars(0, n, false)
    else FromChars(Value(s[..n]), n, true)
  }

  // objectIdFromPath
  function FromPath(path: string): ObjectId {
    var slash := LastSlash(path);
    if slash < 0 || slash + 1 >= |path| then Invalid
    else
      var tail := path[slash + 1..];
      var read := ReadChars(tail);
      if !read.ok || read.consumed != |tail| then Invalid else read.value
  }

  // -- What the paths promise --

  /** A path is the root, the kind and the number in decimal: a number of one
      digit is that digit, and one more digit behind a number is ten times the
      number and the digit. */
  lemma PathsAreDecimal(kind: string, n: nat, d: nat)
    requires d < 10
    ensures Print(kind, d) == "/org/librescrs/Agent/" + kind + "/" + ['0' + d as char]
    ensures n > 0 ==> Print(kind, 10 * n + d) == Print(kind, n) + ['0' + d as char]
  {
    assert Root + "/" == "/org/librescrs/Agent/";
    assert Decimal(d) == ['0' + d as char];
    if n > 0 {
      OneMoreDigit(n, d);
      assert Print(kind, n) + ['0' + d as char] == Root + "/" + kind + "/" + (Decimal(n) + ['0' + d as char]);
    }
  }

  lemma OneMoreDigit(n: nat, d: nat)
    requires n > 0 && d < 10
    ensures Decimal(10 * n + d) == Decimal(n) + ['0' + d as char]
  {
    assert (10 * n + d) / 10 == n && (10 * n + d) % 10 == d;
  }

  // Reading takes it the same way.
  lemma NumbersAreDecimal(s: string, c: char)
    requires AllDigits(s) && '0' <= c <= '9'
    ensures AllDigits(s + [c]) && Value(s + [c]) == 10 * Value(s) + (c as int - '0' as int)
    ensures Value("") == 0
  {
    assert (s + [c])[..|s|] == s;
  }

  lemma {:induction false} DecimalReads(n: nat)
    ensures Decimal(n) != [] && AllDigits(Decimal(n)) && Value(Decimal(n)) == n
  {
    if n >= 10 {
      DecimalReads(n / 10);
      assert Decimal(n)[..|Decimal(n)| - 1] == Decimal(n / 10);
    } else {
      assert Decimal(n) == ['0' + n as char];
    }
  }

  lemma {:induction false} LastSlashIs(prefix: string, tail: string)
    requires SlashFree(tail)
    ensures LastSlash(prefix + "/" + tail) == |prefix|
  {
    var path := prefix + "/" + tail;
    if tail == [] {
      assert path[|path| - 1] == '/';
    } else {
      assert path[|path| - 1] == tail[|tail| - 1];
      assert path[..|path| - 1] == prefix + "/" + tail[..|tail| - 1];
      LastSlashIs(prefix, tail[..|tail| - 1]);
    }
  }

  lemma WholeTailRead(tail: string)
    ensures var read := ReadChars(tail);
      if tail != [] && AllDigits(tail) && Value(tail) < Limit then read == FromChars(Value(tail), |tail|, true)
      else !read.ok || read.consumed != |tail|
  {
    var n := DigitPrefix(tail);
    if n == |tail| {
      assert tail[..n] == tail;
    }
  }

  /** The whole of the inverse: a path gives the number after its last slash,
      when there is nothing but digits there and they fit in 64 bits; every
      other path gives no object. */
  lemma PathGivesItsTail(prefix: string, tail: string)
    requires SlashFree(tail)
    ensures FromPath(prefix + "/" + tail) ==
            if tail != [] && AllDigits(tail) && Value(tail) < Limit then Value(tail) else Invalid
  {
    var path := prefix + "/" + tail;
    LastSlashIs(prefix, tail);
    assert path[|prefix| + 1..] == tail;
    WholeTailRead(tail);
  }

  lemma SlashlessPathGivesNothing(path: string)
    requires SlashFree(path)
    ensures FromPath(path) == Invalid
  {
  }

  lemma DigitsAreSlashFree(s: string)
    requires AllDigits(s)
    ensures SlashFree(s)
  {
  }

  // The path is a prefix, a slash and digits that read as id.
  predicate EndsInNumber(path: string, prefix: string, tail: string, id: ObjectId) {
    path == prefix + "/" + tail && tail != [] && AllDigits(tail) && Value(tail) == id
  }

  /** A path names an object if and only if it ends in a slash and that object's
      number, in digits, below 2^64: every other path names none. */
  lemma PathNamesAnObjectExactly(path: string, id: ObjectId)
    requires id != Invalid
    ensures FromPath(path) == id <==>
              id < 18446744073709551616 &&
              exists prefix: string, tail: string :: EndsInNumber(path, prefix, tail, id)
  {
    var at := LastSlash(path);
    if at < 0 {
      assert path[at + 1..] == path;
      SlashlessPathGivesNothing(path);
    } else {
      assert path == path[..at] + "/" + path[at + 1..];
      PathGivesItsTail(path[..at], path[at + 1..]);
      if FromPath(path) == id {
        assert EndsInNumber(path, path[..at], path[at + 1..], id);
      }
    }
    forall prefix: string, tail: string | EndsInNumber(path, prefix, tail, id) && id < Limit
      ensures FromPath(path) == id
    {
      DigitsAreSlashFree(tail);
      PathGivesItsTail(prefix, tail);
    }
  }

  /** Parsing inverts printing below 2^64, and refuses what does not fit. */
  lemma ParseInvertsPrint(kind: string, id: ObjectId)
    ensures FromPath(Print(kind, id)) == if id < 18446744073709551616 then id else 0
  {
    DecimalReads(id);
    DigitsAreSlashFree(Decimal(id));
    assert Print(kind, id) == (Root + "/" + kind) + "/" + Decimal(id);
    PathGivesItsTail(Root + "/" + kind, Decimal(id));
  }

  /** A sign, a space or any other character in the tail refuses the path. */
  lemma JunkIsRejected(prefix: string, tail: string, i: nat)
    requires SlashFree(tail) && i < |tail| && !IsDigit(tail[i])
    ensures FromPath(prefix + "/" + tail) == Invalid
  {
    PathGivesItsTail(prefix, tail);
  }

  /** Different objects, or different slash-free kinds, have different paths. */
  lemma PrintIsInjective(kind: string, id: ObjectId, kind': string, id': ObjectId)
    requires SlashFree(kind) && SlashFree(kind') && Print(kind, id) == Print(kind', id')
    ensures kind == kind' && id == id'
  {
    DecimalReads(id);
    DecimalReads(id');
    DigitsAreSlashFree(Decimal(id));
    DigitsAreSlashFree(Decimal(id'));
    var path, path' := Root + "/" + kind, Root + "/" + kind';
    assert Print(kind, id) == path + "/" + Decimal(id) && Print(kind', id') == path' + "/" + Decimal(id');
    LastSlashIs(path, Decimal(id));
    LastSlashIs(path', Decimal(id'));
    assert Print(kind, id)[..|path|] == path && Print(kind', id')[..|path'|] == path';
    assert Print(kind, id)[|path| + 1..] == Decimal(id) && Print(kind', id')[|path'| + 1..] == Decimal(id');
    assert path[|Root| + 1..] == kind && path'[|Root| + 1..] == kind';
  }

  /** The inverse is one-sided: a path with a leading zero names the object whose
      own path has none. */
  lemma LeadingZeroNamesTheSameObject(kind: string, id: ObjectId)
    requires id < Limit
    ensures FromPath(Root + "/" + kind + "/" + ("0" + Decimal(id))) == id
    ensures Root + "/" + kind + "/" + ("0" + Decimal(id)) != Print(kind, id)
  {
    DecimalReads(id);
    ZeroInFront(Decimal(id));
    DigitsAreSlashFree("0" + Decimal(id));
    PathGivesItsTail(Root + "/" + kind, "0" + Decimal(id));
    assert |Root + "/" + kind + "/" + ("0" + Decimal(id))| == |Print(kind, id)| + 1;
  }

  lemma {:induction false} ZeroInFront(s: string)
    requires AllDigits(s)
    ensures AllDigits("0" + s) && Value("0" + s) == Value(s)
  {
    if s == [] {
      assert ("0" + s)[..0] == [];
    } else {
      ZeroInFront(s[..|s| - 1]);
      assert ("0" + s)[..|s|] == "0" + s[..|s| - 1];
    }
  }
}
