/** The `rpn` application: a reverse-Polish calculator over the command-line
    arguments, with a fixed stack of 100 `long` values. */
module Rpn {
  import opened Wrappers

  const LongMin: int := -0x8000_0000_0000_0000
  const LongMax: int := 0x7FFF_FFFF_FFFF_FFFF

  /** C++ `long` on the x86-64 target: 64-bit two's complement. */
  newtype long = x: int | -0x8000_0000_0000_0000 <= x < 0x8000_0000_0000_0000

  /** The number of slots of the global `stack` array. */
  const StackSize: nat := 100

  /** A command-line argument, classified the way the `strcmp` chain does. */
  datatype Token = Add | Sub | Mul | Div | Rem | Num(value: long)

  function Abs(x: int): nat
  {
    if x < 0 then -x else x
  }

  /** C++ `/`: the quotient truncated toward zero. */
  function CDiv(a: int, b: int): int
    requires b != 0
  {
    var q := Abs(a) / Abs(b);
    if (a < 0) != (b < 0) then -q else q
  }

  /** C++ `%`: the remainder that goes with the truncating quotient. */
  function CRem(a: int, b: int): (r: int)
    requires b != 0
  {
    a - b * CDiv(a, b)
  }

  /** `a == b * (a / b) + a % b` with the remainder smaller than the divisor
      and carrying the sign of the dividend, as C++ requires. */
  lemma DivRemIdentity(a: int, b: int)
    requires b != 0
    ensures a == b * CDiv(a, b) + CRem(a, b)
    ensures Abs(CRem(a, b)) < Abs(b)
    ensures CRem(a, b) != 0 ==> ((CRem(a, b) < 0) <==> (a < 0))
  {
    var q := Abs(a) / Abs(b);
    var r := Abs(a) % Abs(b);
    assert Abs(a) == Abs(b) * q + r;
    if a < 0 && b < 0 {
      assert CRem(a, b) == -r;
    } else if a < 0 {
      assert CRem(a, b) == -r;
    } else if b < 0 {
      assert CRem(a, b) == r;
    } else {
      assert CRem(a, b) == r;
    }
  }

  /** Truncation differs from Dafny's Euclidean division on negative operands. */
  lemma TruncatesTowardZero()
    ensures CDiv(-7, 2) == -3 && CRem(-7, 2) == -1
    ensures CDiv(7, -2) == -3 && CRem(7, -2) == 1
    ensures -7 / 2 == -4
  {
  }

  /** The value of an exact result when it fits in a `long`; anything else is
      undefined behaviour in the C++ program. */
  function ToLong(x: int): Option<long>
  {
    if LongMin <= x <= LongMax then Some(x as long) else None
  }

  /** One operator applied to the two values it pops; `None` where C++ leaves
      the result undefined (overflow, division by zero). */
  function Apply(op: Token, a: long, b: long): (r: Option<long>)
    requires !op.Num?
  {
    match op
    case Add => ToLong(a as int + b as int)
    case Sub => ToLong(a as int - b as int)
    case Mul => ToLong(a as int * b as int)
    case Div => if b == 0 then None else ToLong(CDiv(a as int, b as int))
    case Rem => if b == 0 || CDiv(a as int, b as int) > LongMax then None
                else ToLong(CRem(a as int, b as int))
  }

  /** One token on a stack listed from bottom to top: a number is pushed, an
      operator pops `b`, then `a`, and pushes `a op b`. `None` when the
      program would read below the stack, write past its 100 slots, or
      compute an undefined value. */
  function Step(st: seq<long>, t: Token): (r: Option<seq<long>>)
    ensures r.Some? && t.Num? ==> |st| < StackSize && r.value == st + [t.value]
    ensures r.Some? && !t.Num? ==>
      (|st| >= 2 && |r.value| == |st| - 1
       && r.value[..|st| - 2] == st[..|st| - 2]
       && Some(r.value[|st| - 2]) == Apply(t, st[|st| - 2], st[|st| - 1]))
  {
    if t.Num? then
      if |st| < StackSize then Some(st + [t.value]) else None
    else if |st| < 2 then None
    else
      match Apply(t, st[|st| - 2], st[|st| - 1])
      case None => None
      case Some(v) => Some(st[..|st| - 2] + [v])
  }

  /** The tokens run from left to right. */
  function Exec(st: seq<long>, ts: seq<Token>): Option<seq<long>>
    decreases |ts|
  {
    if ts == [] then Some(st)
    else
      match Step(st, ts[0])
      case None => None
      case Some(st') => Exec(st', ts[1..])
  }

  /** The number of numbers minus the number of operators. */
  function Balance(ts: seq<Token>): int
  {
    if ts == [] then 0 else (if ts[0].Num? then 1 else -1) + Balance(ts[1..])
  }

  /** A run that is defined ends with the stack deeper by the number of
      numbers and shallower by the number of operators, and never beyond 100
      values. */
  lemma {:induction false} ExecDepth(st: seq<long>, ts: seq<Token>)
    requires |st| <= StackSize && Exec(st, ts).Some?
    ensures |Exec(st, ts).value| == |st| + Balance(ts) <= StackSize
    decreases |ts|
  {
    if ts != [] {
      ExecDepth(Step(st, ts[0]).value, ts[1..]);
    }
  }

  /** The result of the run: the top of the stack, or 0 when it is empty. */
  function Top(st: seq<long>): long
  {
    if st == [] then 0 else st[|st| - 1]
  }

  /** `static_cast<int>` of the result for `exit`: the low 32 bits as a
      signed value. */
  function ToInt32(x: long): (r: int)
    ensures -0x8000_0000 <= r < 0x8000_0000
    ensures (r - x as int) % 0x1_0000_0000 == 0
  {
    var low := (x as int) % 0x1_0000_0000;
    if low < 0x8000_0000 then low else low - 0x1_0000_0000
  }

  /** A result that fits in an `int` is the exit code unchanged. */
  lemma ExitCodeOfSmall(x: long)
    requires -0x8000_0000 <= x as int < 0x8000_0000
    ensures ToInt32(x) == x as int
  {
    var r := ToInt32(x);
    var d := r - x as int;
    assert -0x1_0000_0000 < d < 0x1_0000_0000;
    assert d % 0x1_0000_0000 == 0;
  }

  // ---- atol ----

  /** `isspace` in the C locale. */
  predicate IsSpace(c: char)
  {
    c == ' ' || '\t' <= c <= '\r'
  }

  predicate IsDigit(c: char)
  {
    '0' <= c <= '9'
  }

  function SkipSpaces(s: string): (r: string)
    ensures |r| <= |s| && r == s[|s| - |r|..] && (r != [] ==> !IsSpace(r[0]))
  {
    if s != [] && IsSpace(s[0]) then SkipSpaces(s[1..]) else s
  }

  /** The longest prefix of decimal digits. */
  function LeadingDigits(s: string): (r: string)
    ensures r <= s && forall i :: 0 <= i < |r| ==> IsDigit(r[i])
    ensures |r| < |s| ==> !IsDigit(s[|r|])
  {
    if s != [] && IsDigit(s[0]) then [s[0]] + LeadingDigits(s[1..]) else []
  }

  function Digit(c: char): (d: nat)
    requires IsDigit(c)
    ensures d < 10
  {
    c as int - '0' as int
  }

  /** The value of a string of decimal digits, most significant first. */
  function DigitsValue(ds: string): nat
    requires forall i :: 0 <= i < |ds| ==> IsDigit(ds[i])
  {
    if ds == [] then 0
    else DigitsValue(ds[..|ds| - 1]) * 10 + Digit(ds[|ds| - 1])
  }

  /** `atol` as `strtol(s, NULL, 10)`: leading white space, an optional sign
      and the longest run of digits; no digits gives 0, and a value out of
      range saturates at the nearer limit. */
  function Atol(s: string): (r: long)
  {
    var t := SkipSpaces(s);
    var neg := t != [] && t[0] == '-';
    var u := if t != [] && (t[0] == '-' || t[0] == '+') then t[1..] else t;
    var v: int := DigitsValue(LeadingDigits(u));
    var x: int := if neg then -v else v;
    if x < LongMin then LongMin as long
    else if x > LongMax then LongMax as long
    else x as long
  }

  /** The decimal digits of a natural number (`%ld` without the sign). */
  function ShowNat(n: nat): (r: string)
    ensures r != [] && forall i :: 0 <= i < |r| ==> IsDigit(r[i])
  {
    if n < 10 then [('0' as int + n) as char]
    else ShowNat(n / 10) + [('0' as int + n % 10) as char]
  }

  /** `printf("%ld")` of a value. */
  function Show(x: long): (r: string)
    ensures r != [] && (r[0] == '-' || IsDigit(r[0]))
  {
    if x < 0 then "-" + ShowNat(-(x as int)) else ShowNat(x as int)
  }

  lemma {:induction false} ShowNatValue(n: nat)
    ensures DigitsValue(ShowNat(n)) == n
  {
    if n >= 10 {
      ShowNatValue(n / 10);
      var r := ShowNat(n);
      assert r[..|r| - 1] == ShowNat(n / 10);
    }
  }

  lemma {:induction false} AllDigitsLead(ds: string)
    requires forall i :: 0 <= i < |ds| ==> IsDigit(ds[i])
    ensures LeadingDigits(ds) == ds
  {
    if ds != [] {
      AllDigitsLead(ds[1..]);
    }
  }

  /** Reading back the printed value gives the value: `atol` inverts
      `%ld`. */
  lemma AtolShow(x: long)
    ensures Atol(Show(x)) == x
  {
    var s := Show(x);
    assert SkipSpaces(s) == s;
    var m := Abs(x as int);
    var ds := ShowNat(m);
    AllDigitsLead(ds);
    ShowNatValue(m);
    if x < 0 {
      assert s[1..] == ds;
    } else {
      assert s == ds;
    }
  }

  /** One of the five operator strings. */
  predicate IsOperator(arg: string)
  {
    arg == "+" || arg == "-" || arg == "*" || arg == "/" || arg == "%"
  }

  /** The `strcmp` chain: the five operator strings, anything else a number. */
  function Classify(arg: string): (t: Token)
    ensures t.Num? <==> !IsOperator(arg)
    ensures t.Num? ==> t.value == Atol(arg)
  {
    if arg == "+" then Add
    else if arg == "-" then Sub
    else if arg == "*" then Mul
    else if arg == "/" then Div
    else if arg == "%" then Rem
    else Num(Atol(arg))
  }

  /** The arguments after the program name, as tokens. */
  function Tokens(args: seq<string>): (ts: seq<Token>)
    ensures |ts| == |args|
    ensures forall i :: 0 <= i < |args| ==> ts[i] == Classify(args[i])
  {
    if args == [] then [] else [Classify(args[0])] + Tokens(args[1..])
  }

  /** The program's arguments without `argv[0]`. */
  function Operands(argv: seq<string>): seq<string>
  {
    if argv == [] then [] else argv[1..]
  }

  /** The outcome of the whole program on `argv`, when it is defined: the
      printed result and the exit code. */
  function Outcome(argv: seq<string>): Option<(long, int)>
  {
    match Exec([], Tokens(Operands(argv)))
    case None => None
    case Some(st) => Some((Top(st), ToInt32(Top(st))))
  }

  /** The tokens of "3 4 + 2 *" leave 14 alone on the stack. */
  lemma ExampleRun(ts: seq<Token>)
    requires ts == [Num(3), Num(4), Add, Num(2), Mul]
    ensures Exec([], ts) == Some([14])
  {
    ExecFirst([], ts, 0);
    assert Step([], Num(3)) == Some([3]) by {
      assert [] + [3 as long] == [3];
    }
    ExecFirst([3], ts, 1);
    assert Step([3], Num(4)) == Some([3, 4]) by {
      assert [3 as long] + [4 as long] == [3, 4];
    }
    ExecFirst([3, 4], ts, 2);
    assert Step([3, 4], Add) == Some([7]) by {
      assert [3 as long, 4][..0] + [7 as long] == [7];
    }
    ExecFirst([7], ts, 3);
    assert Step([7], Num(2)) == Some([7, 2]) by {
      assert [7 as long] + [2 as long] == [7, 2];
    }
    ExecFirst([7, 2], ts, 4);
    assert Step([7, 2], Mul) == Some([14]) by {
      assert [7 as long, 2][..0] + [14 as long] == [14];
    }
    assert ts[5..] == [];
    assert ts[0..] == ts;
  }

  /** Running from the `i`-th token is running that token, then the rest. */
  lemma ExecFirst(st: seq<long>, ts: seq<Token>, i: nat)
    requires i < |ts|
    ensures Exec(st, ts[i..]) ==
      (match Step(st, ts[i]) case None => None case Some(st') => Exec(st', ts[i + 1..]))
  {
    assert ts[i..][0] == ts[i] && ts[i..][1..] == ts[i + 1..];
  }

  /** The globals `stack` and `stack_ptr`: the values `stack[0..stack_ptr]`
      are the stack from bottom to top. */
  class Machine {
    const stack: array<long>
    var stackPtr: int

    ghost predicate Valid()
      reads this
    {
      stack.Length == StackSize && -1 <= stackPtr < StackSize
    }

    /** The values on the stack, bottom first. */
    function Contents(): (c: seq<long>)
      reads this, stack
      requires Valid()
      ensures |c| == stackPtr + 1
    {
      stack[..stackPtr + 1]
    }

    /** The global stack as `main` leaves it after `stack_ptr = -1`: empty. */
    constructor ()
      ensures Valid() && fresh(stack)
      ensures stackPtr == -1 && Contents() == []
    {
      stack := new long[StackSize];
      stackPtr := -1;
    }

    /** `Pop`: read the top slot and move `stack_ptr` down; there is no check
        for an empty stack, so the caller must not pop one. */
    method Pop() returns (value: long)
      requires Valid() && stackPtr >= 0
      modifies this
      ensures Valid() && stackPtr == old(stackPtr) - 1
      ensures value == old(Contents())[|old(Contents())| - 1]
      ensures Contents() == old(Contents())[..|old(Contents())| - 1]
    {
      value := stack[stackPtr];
      stackPtr := stackPtr - 1;
    }

    /** `Push`: move `stack_ptr` up and store there; there is no check for a
        full stack, so the caller must not push onto 100 values. */
    method Push(value: long)
      requires Valid() && stackPtr < StackSize - 1
      modifies this, stack
      ensures Valid() && stackPtr == old(stackPtr) + 1
      ensures Contents() == old(Contents()) + [value]
    {
      ghost var c := Contents();
      stackPtr := stackPtr + 1;
      stack[stackPtr] := value;
      assert stack[..stackPtr] == c;
    }

    /** One argument of the loop in `main`. */
    method Execute(arg: string)
      requires Valid() && Step(Contents(), Classify(arg)).Some?
      modifies this, stack
      ensures Valid() && Contents() == Step(old(Contents()), Classify(arg)).value
    {
      ghost var c := Contents();
      if IsOperator(arg) {
        var b := Pop();
        var a := Pop();
        assert a == c[|c| - 2] && b == c[|c| - 1];
        assert Contents() == c[..|c| - 2];
        var r: long;
        if arg == "+" {
          r := (a as int + b as int) as long;
        } else if arg == "-" {
          r := (a as int - b as int) as long;
        } else if arg == "*" {
          r := (a as int * b as int) as long;
        } else if arg == "/" {
          r := CDiv(a as int, b as int) as long;
        } else {
          r := CRem(a as int, b as int) as long;
        }
        Push(r);
      } else {
        var a := Atol(arg);
        Push(a);
      }
    }

    /** `main`: reset the stack, run every argument after the program name,
        then take the top value (0 for an empty stack) as the printed result
        and the exit code. The program checks nothing, so the run must be one
        `Exec` defines. */
    method Run(argv: seq<string>) returns (result: long, exitCode: int)
      requires Valid() && Exec([], Tokens(Operands(argv))).Some?
      modifies this, stack
      ensures Outcome(argv) == Some((result, exitCode))
    {
      stackPtr := -1;
      var args := Operands(argv);
      ghost var ts := Tokens(args);
      var i := 0;
      while i < |args|
        invariant Valid() && 0 <= i <= |args|
        invariant Exec(Contents(), ts[i..]) == Exec([], ts)
      {
        assert ts[i] == Classify(args[i]);
        ExecFirst(Contents(), ts, i);
        Execute(args[i]);
        i := i + 1;
      }
      result := 0;
      if stackPtr >= 0 {
        result := Pop();
      }
      exitCode := ToInt32(result);
    }
  }
}
