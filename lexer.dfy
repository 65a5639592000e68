/** The lexer state machine: a cursor (`start`, `pos`, `width`) over the input, the primitive
    moves `next/backup/peek/accept/acceptRun/ignore/emit/errorf`, one method per state
    function, and the driver loop `run`. The token channel becomes the field `tokens`. Each
    state method is proved to keep "tokens emitted so far + tokens still to come from the new
    state" equal to what it was, so `Lex` emits exactly `LexerSpec.Tokenize(input)`. */
module Lexer {
  import opened Util
  import opened Token
  import opened LexerSpec

  /** The state functions; `Stop` is the nil state that ends `run`, `Hang` the point where
      `lexString` would spin forever at the end of input. */
  datatype State = Expression | Operator | Identifier | Number | Str | Stop | Hang

  class Lexer {
    const input: string
    var start: nat
    var pos: nat
    var width: nat
    var tokens: seq<Token>

    ghost predicate Valid()
      reads this
    {
      start <= pos <= |input| && IsAscii(input)
    }

    /** What the machine is still going to emit when it is in state `st`. */
    ghost predicate StateOk(st: State)
      reads this
    {
      Valid() &&
      match st
      case Expression => start == pos
      case Operator => start == pos < |input| && IsOperator(input[pos])
      case Identifier => start == pos < |input| && IsLetter(input[pos])
      case Number => start == pos < |input| && IsNumber(input[pos])
      case Str => true
      case Stop => true
      case Hang => true
    }

    ghost function Pending(st: State): Scan
      reads this
      requires StateOk(st)
    {
      match st
      case Expression => ScanExpression(input, pos)
      case Operator => ScanOperator(input, pos)
      case Identifier => ScanIdentifier(input, pos)
      case Number => ScanNumber(input, pos)
      case Str => ScanString(input, start, pos)
      case Stop => Scan([], false)
      case Hang => Scan([], true)
    }

    /** Everything the machine emits over its whole run, seen from state `st`. */
    ghost function Total(st: State): Scan
      reads this
      requires StateOk(st)
    {
      Scan(tokens + Pending(st).tokens, Pending(st).hangs)
    }

    /** Second component of `run`'s termination measure: a state that does not move the
        cursor hands over to one of lower rank. */
    ghost function Rank(st: State): nat {
      match st
      case Expression => 2
      case Stop => 0
      case Hang => 0
      case _ => 1
    }

    /** The cursor moved forward, or stayed while the state's rank dropped below `r`. */
    ghost predicate Progress(oldPos: nat, r: nat, next: State)
      reads this
    {
      pos > oldPos || (pos == oldPos && Rank(next) < r)
    }

    constructor (s: string)
      requires IsAscii(s)
      ensures input == s && start == 0 && pos == 0 && width == 0 && tokens == []
      ensures StateOk(Expression)
    {
      input := s;
      start, pos, width := 0, 0, 0;
      tokens := [];
    }

    /** `next`: the rune at the cursor, consumed; 0 (and no move) at the end of input. */
    method Next() returns (r: char)
      requires Valid()
      modifies this
      ensures Valid() && start == old(start) && tokens == old(tokens)
      ensures r == RuneAt(input, old(pos))
      ensures old(pos) < |input| ==> pos == old(pos) + 1 && width == 1
      ensures old(pos) == |input| ==> pos == old(pos) && width == 0
    {
      if pos >= |input| {
        width := 0;
        return 0 as char;
      }
      r := input[pos];
      width := 1;
      pos := pos + 1;
    }

    /** `ignore`: drop the text scanned since the last token. */
    method Ignore()
      requires Valid()
      modifies this
      ensures Valid() && start == pos && pos == old(pos) && width == old(width) && tokens == old(tokens)
    {
      start := pos;
    }

    /** `backup`: step back over the rune `next` returned. */
    method Backup()
      requires Valid() && start + width <= pos
      modifies this
      ensures Valid() && pos == old(pos) - old(width)
      ensures start == old(start) && width == old(width) && tokens == old(tokens)
    {
      pos := pos - width;
    }

    /** `peek`: the rune at the cursor, not consumed. */
    method Peek() returns (r: char)
      requires Valid()
      modifies this
      ensures Valid() && pos == old(pos) && start == old(start) && tokens == old(tokens)
      ensures r == RuneAt(input, pos)
    {
      r := Next();
      Backup();
    }

    /** `accept`: consume the next rune if it belongs to `valid`. */
    method Accept(valid: CharSet) returns (ok: bool)
      requires Valid()
      modifies this
      ensures Valid() && start == old(start) && tokens == old(tokens)
      ensures pos == AcceptAt(input, old(pos), valid)
      ensures ok <==> pos > old(pos)
    {
      var r := Next();
      if r != 0 as char && InSet(r, valid) {
        return true;
      }
      Backup();
      return false;
    }

    /** `acceptRun`: consume the longest run of runes that belong to `valid`. */
    method AcceptRun(valid: CharSet) returns (ok: bool)
      requires Valid()
      modifies this
      ensures Valid() && start == old(start) && tokens == old(tokens)
      ensures pos == AcceptRunAt(input, old(pos), valid)
      ensures ok
    {
      var before := pos;
      var r := Next();
      while r != 0 as char && InSet(r, valid)
        invariant Valid() && start == old(start) && tokens == old(tokens)
        invariant old(pos) <= before <= |input|
        invariant AcceptRunAt(input, old(pos), valid) == AcceptRunAt(input, before, valid)
        invariant r == RuneAt(input, before)
        invariant before < |input| ==> pos == before + 1 && width == 1
        invariant before == |input| ==> pos == before && width == 0
        decreases |input| - before
      {
        before := pos;
        r := Next();
      }
      Backup();
      return true;
    }

    /** `emit`: send the text scanned since the last token as a token of kind k. */
    method Emit(k: Kind)
      requires Valid()
      modifies this
      ensures Valid() && start == pos && pos == old(pos) && width == old(width)
      ensures tokens == old(tokens) + [Token(k, input[old(start)..pos], old(start))]
    {
      tokens := tokens + [Token(k, input[start..pos], start)];
      start := pos;
    }

    /** `errorf`: send an ILLEGAL token carrying the diagnostic `msg`. */
    method Errorf(msg: string)
      requires Valid()
      modifies this
      ensures Valid() && start == pos && pos == old(pos) && width == old(width)
      ensures tokens == old(tokens) + [Token(ILLEGAL, msg, old(start))]
    {
      tokens := tokens + [Token(ILLEGAL, msg, start)];
      start := pos;
    }

    /** `lexExpression`. */
    method LexExpression() returns (next: State)
      requires StateOk(Expression)
      modifies this
      ensures StateOk(next) && Total(next) == old(Total(Expression))
      ensures Progress(old(pos), 2, next)
    {
      ghost var p := pos;
      var r := Next();
      if IsSpace(r) {
        Ignore();
        return Expression;
      } else if IsOperator(r) {
        Backup();
        return Operator;
      } else if IsLetter(r) {
        Backup();
        return Identifier;
      } else if r == '"' {
        Ignore();
        return Str;
      } else if r != 0 as char && DelimiterKind(r) != EOF {
        ghost var before := tokens;
        Emit(DelimiterKind(r));
        EmitThen(before, Token(DelimiterKind(r), input[p..pos], p), ScanExpression(input, pos));
        return Expression;
      } else if r == 0 as char {
        assert p < |input| ==> input[p..pos] == [input[p]];
        Emit(EOF);
        return Stop;
      } else if IsNumber(r) {
        Backup();
        return Number;
      } else {
        ghost var before := tokens;
        Errorf("lexer: invalid token " + QuoteRune(r));
        EmitThen(before, Token(ILLEGAL, "lexer: invalid token " + QuoteRune(r), p), ScanExpression(input, pos));
        return Expression;
      }
    }

    /** `lexOperator`. */
    method LexOperator() returns (next: State)
      requires StateOk(Operator)
      modifies this
      ensures StateOk(next) && Total(next) == old(Total(Operator))
      ensures Progress(old(pos), 1, next)
    {
      ghost var p := pos;
      ghost var before := tokens;
      var r := Next();
      var k := SingleOperator(r);
      if k == ILLEGAL {
        assert ScanOperator(input, p) == Scan([Token(ILLEGAL, "illegal operator: " + QuoteRune(r), p)], false);
        Errorf("illegal operator: " + QuoteRune(r));
        return Stop;
      }
      if HasDouble(r) {
        var d := Next();
        if DoubleOperator(r, d) != ILLEGAL {
          assert pos == p + 2 && d == input[p + 1];
          ghost var t := Token(DoubleOperator(r, d), input[p..p + 2], p);
          assert ScanOperator(input, p) == Prepend(t, ScanExpression(input, p + 2));
          Emit(DoubleOperator(r, d));
          EmitThen(before, t, ScanExpression(input, pos));
          return Expression;
        }
        Backup();
      }
      assert pos == p + 1;
      ghost var t := Token(k, input[p..p + 1], p);
      assert ScanOperator(input, p) == Prepend(t, ScanExpression(input, p + 1));
      Emit(k);
      EmitThen(before, t, ScanExpression(input, pos));
      return Expression;
    }

    /** `lexIdentifier`. */
    method LexIdentifier() returns (next: State)
      requires StateOk(Identifier)
      modifies this
      ensures StateOk(next) && Total(next) == old(Total(Identifier))
      ensures next == Expression && pos > old(pos)
      ensures Progress(old(pos), 1, next)
    {
      var _ := AcceptRun(IdentChars);
      Emit(LookupIdent(input[start..pos]));
      return Expression;
    }

    /** The cursor moves of `lexNumber`: optional sign, `0x` prefix, digits, fraction and
        exponent. */
    method AcceptNumber()
      requires Valid()
      modifies this
      ensures Valid() && start == old(start) && tokens == old(tokens)
      ensures pos == NumberEnd(input, old(pos))
    {
      ghost var p := pos;
      var digits := AcceptBase();
      ghost var q2 := pos;
      AcceptDigits(digits);
      var q1 := AcceptAt(input, p, Signs);
      NumberEndSteps(input, p, q1, AcceptAt(input, q1, Zero), q2, digits, AcceptRunAt(input, q2, digits),
        DigitsEnd(input, q2, digits), pos);
    }

    /** The sign and base-prefix moves of `lexNumber`; the digits the number is read in. */
    method AcceptBase() returns (digits: CharSet)
      requires Valid()
      modifies this
      ensures Valid() && start == old(start) && tokens == old(tokens)
      ensures var q1 := AcceptAt(input, old(pos), Signs); var q0 := AcceptAt(input, q1, Zero);
        && pos == (if q0 > q1 then AcceptAt(input, q0, HexMark) else q1)
        && digits == (if q0 > q1 && pos > q0 then HexDigits else DecDigits)
    {
      digits := DecDigits;
      var _ := Accept(Signs);
      var zero := Accept(Zero);
      if zero {
        var hex := Accept(HexMark);
        if hex {
          digits := HexDigits;
        }
      }
    }

    /** The digit, fraction and exponent moves of `lexNumber`. */
    method AcceptDigits(digits: CharSet)
      requires Valid()
      modifies this
      ensures Valid() && start == old(start) && tokens == old(tokens)
      ensures var q4 := DigitsEnd(input, old(pos), digits);
        pos == if AcceptAt(input, q4, ExpMark) > q4 then AcceptAt(input, AcceptAt(input, q4 + 1, Signs), DecDigits) else q4
    {
      var _ := AcceptRun(digits);
      var dot := Accept(Dot);
      if dot {
        var _ := AcceptRun(digits);
      }
      var exp := Accept(ExpMark);
      if exp {
        var _ := Accept(Signs);
        var _ := Accept(DecDigits);
      }
    }

    /** `lexNumber`. */
    method LexNumber() returns (next: State)
      requires StateOk(Number)
      modifies this
      ensures StateOk(next) && Total(next) == old(Total(Number))
      ensures next == Expression && pos > old(pos)
      ensures Progress(old(pos), 1, next)
    {
      AcceptNumber();
      Emit(INT);
      return Expression;
    }

    /** `lexString`: scan up to the closing quote, emit the text between the quotes and
        consume the closing quote. */
    method LexString() returns (next: State)
      requires StateOk(Str)
      modifies this
      ensures StateOk(next) && Total(next) == old(Total(Str))
      ensures Progress(old(pos), 1, next)
    {
      var r := Peek();
      if r == '"' {
        Emit(STRING);
        var _ := Next();
        Ignore();
        return Expression;
      }
      if pos == |input| {
        return Hang;
      }
      var _ := Next();
      return Str;
    }

    /** `run`: drive the state functions from `lexExpression` until the nil state. */
    method Run() returns (hangs: bool)
      requires StateOk(Expression) && pos == 0 && tokens == []
      modifies this
      ensures Scan(tokens, hangs) == Tokenize(input)
    {
      ghost var whole := Total(Expression);
      assert whole == Tokenize(input) by {
        assert tokens + Pending(Expression).tokens == Pending(Expression).tokens;
      }
      var st := Expression;
      while st != Stop && st != Hang
        invariant StateOk(st) && Total(st) == whole
        decreases |input| - pos, Rank(st)
      {
        match st {
          case Expression => st := LexExpression();
          case Operator => st := LexOperator();
          case Identifier => st := LexIdentifier();
          case Number => st := LexNumber();
          case Str => st := LexString();
        }
      }
      return st == Hang;
    }
  }

  /** `Lex`: the whole token stream of `input`, plus whether the lexer would hang on an
      unterminated string after sending those tokens. */
  method Lex(input: string) returns (tokens: seq<Token>, hangs: bool)
    requires IsAscii(input)
    ensures Scan(tokens, hangs) == Tokenize(input)
  {
    var l := new Lexer(input);
    hangs := l.Run();
    tokens := l.tokens;
  }
  /** Emitting t and then running on to `rest` is running on to `rest` with t in front. */
  lemma EmitThen(before: seq<Token>, t: Token, rest: Scan)
    ensures Scan((before + [t]) + rest.tokens, rest.hangs) == Scan(before + Prepend(t, rest).tokens, Prepend(t, rest).hangs)
  {
    assert (before + [t]) + rest.tokens == before + ([t] + rest.tokens);
  }

  /** Where the digits and the optional fraction of a number read from q end. */
  ghost function DigitsEnd(input: string, q: nat, digits: CharSet): nat
    requires q <= |input|
  {
    var q3 := AcceptRunAt(input, q, digits);
    if AcceptAt(input, q3, Dot) > q3 then AcceptRunAt(input, q3 + 1, digits) else q3
  }

  /** `NumberEnd` assembled from the positions after each of its moves. */
  lemma NumberEndSteps(input: string, p: nat, q1: nat, q0: nat, q2: nat, digits: CharSet, q3: nat, q4: nat, q5: nat)
    requires p <= |input|
    requires q1 == AcceptAt(input, p, Signs) && q0 == AcceptAt(input, q1, Zero)
    requires q2 == if q0 > q1 then AcceptAt(input, q0, HexMark) else q1
    requires digits == if q0 > q1 && q2 > q0 then HexDigits else DecDigits
    requires q3 == AcceptRunAt(input, q2, digits)
    requires q4 == if AcceptAt(input, q3, Dot) > q3 then AcceptRunAt(input, q3 + 1, digits) else q3
    requires q5 == if AcceptAt(input, q4, ExpMark) > q4 then AcceptAt(input, AcceptAt(input, q4 + 1, Signs), DecDigits) else q4
    ensures q5 == NumberEnd(input, p)
  {
  }
}
