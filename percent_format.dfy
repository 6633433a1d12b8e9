/** Python's `fmt % args` for a tuple `args`, for the conversions the lock
    commands use: `%s`, `%d` and `%%`.  None stands for the cases where Python
    raises (too few or too many arguments, a lone `%` at the end, `%d` of a
    string, list, tuple or None), for `%d` of a float, which Python would
    truncate, and for conversions outside that subset. */
module PercentFormat {
  import opened Wrappers
  import opened PyValues
  import Decimal

  /** The text one conversion produces for one argument: `%d` of an integer
      reads back as that integer, a bool as 1 or 0; `%s` of a string is the
      string; `%d` of a string, list, tuple or None fails (and so, in this
      model, does `%d` of a float). */
  function Convert(conversion: char, v: Value): (r: Option<string>)
    ensures conversion == 'd' && IsInteger(v) ==> r == Some(Decimal.Render(IntValue(v)))
    ensures conversion == 'd' && IsInteger(v) ==> r.Some? && Decimal.Parse(r.value) == Some(IntValue(v))
    ensures conversion == 'd' && v.Bool? ==> r == Some(if v.b then "1" else "0")
    ensures conversion == 's' && v.Str? ==> r == Some(v.s)
    ensures conversion == 'd' && !IsInteger(v) ==> r.None?
  {
    match conversion
    case 'd' =>
      if IsInteger(v) then
        Decimal.ParseRender(IntValue(v));
        Some(Decimal.Render(IntValue(v)))
      else None
    case 's' =>
      (match v
       case Str(s) => Some(s)
       case Int(i) => Some(Decimal.Render(i))
       case Bool(b) => Some(if b then "True" else "False")
       case _ => None)
    case _ => None
  }

  function Prepend(prefix: string, o: Option<string>): Option<string> {
    match o
    case None => None
    case Some(t) => Some(prefix + t)
  }

  /** `fmt % tuple(args)`. */
  function Format(fmt: string, args: seq<Value>): Option<string>
    decreases |fmt|
  {
    if fmt == [] then
      if args == [] then Some("") else None
    else if fmt[0] != '%' then
      Prepend([fmt[0]], Format(fmt[1..], args))
    else if |fmt| == 1 then
      None
    else if fmt[1] == '%' then
      Prepend("%", Format(fmt[2..], args))
    else if args == [] then
      None
    else
      match Convert(fmt[1], args[0])
      case None => None
      case Some(piece) => Prepend(piece, Format(fmt[2..], args[1..]))
  }

  /** Text without a `%` is copied as it is. */
  lemma {:induction false} FormatPlain(plain: string, rest: string, args: seq<Value>)
    requires forall i :: 0 <= i < |plain| ==> plain[i] != '%'
    ensures Format(plain + rest, args) == Prepend(plain, Format(rest, args))
  {
    if plain != [] {
      assert (plain + rest)[1..] == plain[1..] + rest;
      FormatPlain(plain[1..], rest, args);
      match Format(rest, args)
      case None =>
      case Some(t) => assert [plain[0]] + (plain[1..] + t) == plain + t;
    } else {
      assert plain + rest == rest;
      match Format(rest, args)
      case None =>
      case Some(t) => assert plain + t == t;
    }
  }

  /** A conversion consumes the next argument. */
  lemma FormatConversion(conversion: char, rest: string, v: Value, args: seq<Value>)
    requires conversion != '%' && Convert(conversion, v).Some?
    ensures Format(['%', conversion] + rest, [v] + args) == Prepend(Convert(conversion, v).value, Format(rest, args))
  {
    assert (['%', conversion] + rest)[2..] == rest;
    assert ([v] + args)[1..] == args;
  }

  /** Text without a `%` takes no argument. */
  lemma FormatEnd(plain: string)
    requires forall i :: 0 <= i < |plain| ==> plain[i] != '%'
    ensures Format(plain, []) == Some(plain)
  {
    FormatPlain(plain, "", []);
    assert plain + "" == plain;
  }

  /** Plain text, then one conversion: the text and the converted argument are
      emitted and the rest of the template goes on with the remaining arguments. */
  lemma FormatStep(plain: string, conversion: char, rest: string, v: Value, args: seq<Value>)
    requires forall i :: 0 <= i < |plain| ==> plain[i] != '%'
    requires conversion != '%' && Convert(conversion, v).Some?
    ensures Format(plain + (['%', conversion] + rest), [v] + args)
            == Prepend(plain, Prepend(Convert(conversion, v).value, Format(rest, args)))
  {
    FormatPlain(plain, ['%', conversion] + rest, [v] + args);
    FormatConversion(conversion, rest, v, args);
  }
}
