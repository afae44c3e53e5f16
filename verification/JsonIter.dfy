/** The strict JSON tokenizer as an object with a position and a state. */
module JsonIter {
  import opened JsonTokens

  class Iter {
    const data: string
    var i: nat
    var cur: nat
    var top: seq<nat>
    var err: Err

    constructor (data: string)
      ensures this.data == data && Value() == St(0, 0, [], NoErr)
    {
      this.data := data;
      i, cur, top, err := 0, 0, [], NoErr;
    }

    function Value(): St
      reads this
    {
      St(i, cur, top, err)
    }

    method SkipWhitespace() returns (eof: bool)
      requires i <= |data|
      modifies this`i, this`err
      ensures i == SkipWs(data, old(i)) && eof == (i == |data|)
      ensures err == if eof then UnexpectedEOF else old(err)
    {
      while i < |data| && IsWhitespace(data[i])
        invariant i <= |data| && SkipWs(data, i) == SkipWs(data, old(i)) && err == old(err)
      {
        i := i + 1;
      }
      if i == |data| {
        err := UnexpectedEOF;
        return true;
      }
      return false;
    }

    method Errorf() returns (t: Token)
      modifies this`err
      ensures (Value(), t) == Fail(old(Value()))
    {
      err := Syntax(i);
      t := NONE;
    }

    method ReadString() returns (t: Token)
      requires i < |data|
      modifies this`i, this`err
      ensures (Value(), t) == JsonTokens.ReadString(data, old(Value()))
    {
      if data[i] != '"' {
        t := Errorf();
        return;
      }
      var j := i + 1;
      while j < |data|
        invariant i + 1 <= j <= |data| && ScanString(data, j) == ScanString(data, i + 1)
      {
        if data[j] == '"' && data[j - 1] != '\\' {
          t := Token(String, data[i..j + 1]);
          i := j + 1;
          return;
        }
        j := j + 1;
      }
      err := UnexpectedEOF;
      t := NONE;
    }

    method ReadNumber() returns (t: Token)
      requires i < |data|
      modifies this`i, this`err
      ensures (Value(), t) == JsonTokens.ReadNumber(data, old(Value()))
    {
      var j, isfrac, isexp, due := i, false, false, true;
      if data[j] == '-' {
        j := j + 1;
      }
      ghost var goal := ScanNumber(data, j, false, false);
      while true
        invariant i <= j <= |data| && i == old(i) && err == old(err) && cur == old(cur) && top == old(top)
        invariant goal == if due then ScanNumber(data, j, isfrac, isexp) else ScanDigits(data, j, isfrac, isexp)
        decreases |data| - j, !due
      {
        if due {
          if j >= |data| {
            err := UnexpectedEOF;
            return NONE;
          }
          if !IsDigit(data[j]) {
            t := Errorf();
            return;
          }
          j, due := j + 1, false;
        } else if j < |data| && IsDigit(data[j]) {
          j := j + 1;
        } else if j < |data| && !isfrac && data[j] == '.' {
          isfrac, j, due := true, j + 1, true;
        } else if j < |data| && !isexp && (data[j] == 'e' || data[j] == 'E') {
          isfrac, isexp, j, due := true, true, j + 1, true;
          if j < |data| && data[j] == '-' {
            j := j + 1;
          }
        } else {
          t := Token(Number, data[i..j]);
          i := j;
          return;
        }
      }
    }

    method ReadWord(word: string, kind: Kind) returns (t: Token)
      requires i < |data|
      modifies this`i, this`err
      ensures (Value(), t) == Emit(data, old(Value()), kind, ScanWord(data, old(i), word))
    {
      if i + |word| > |data| {
        err := UnexpectedEOF;
        return NONE;
      }
      var part := data[i..i + |word|];
      for k := 0 to |word|
        invariant part[..k] == word[..k]
        invariant Value() == old(Value())
      {
        if part[k] != word[k] {
          t := Errorf();
          return;
        }
      }
      assert part[..|word|] == part && word[..|word|] == word;
      i := i + |word|;
      t := Token(kind, part);
    }

    method OpenBracket(kind: Kind, state: nat) returns (t: Token)
      requires i < |data|
      modifies this`i, this`cur, this`top
      ensures (Value(), t) == Open(data, old(Value()), kind, state)
    {
      if cur != 0 {
        top := top + [cur];
      }
      cur := state;
      t := Token(kind, data[i..i + 1]);
      i := i + 1;
    }

    method ReadValue() returns (t: Token)
      requires i < |data|
      modifies this
      ensures (Value(), t) == JsonTokens.ReadValue(data, old(Value()))
    {
      match data[i]
      case 'n' => t := ReadWord("null", Null);
      case 't' => t := ReadWord("true", True);
      case 'f' => t := ReadWord("false", False);
      case '"' => t := ReadString();
      case '{' => t := OpenBracket(Object, 3);
      case '[' => t := OpenBracket(Array, 1);
      case c =>
        if IsDigit(c) || c == '-' {
          t := ReadNumber();
        } else {
          t := Errorf();
        }
    }

    method CloseBracket(kind: Kind) returns (t: Token)
      requires i < |data|
      modifies this`i, this`cur, this`top
      ensures (Value(), t) == Close(data, old(Value()), kind)
    {
      if |top| > 0 {
        cur := top[|top| - 1];
        top := top[..|top| - 1];
      } else {
        cur := 0;
      }
      t := Token(kind, data[i..i + 1]);
      i := i + 1;
    }

    method Next() returns (t: Token)
      requires i <= |data|
      modifies this
      ensures (Value(), t) == JsonTokens.Next(data, old(Value()))
    {
      hide SkipWs, ScanString, ScanNumber, ScanDigits, JsonTokens.ReadValue, JsonTokens.ReadString, Close;
      if err != NoErr {
        return NONE;
      }
      var eof := SkipWhitespace();
      if eof {
        if cur == 0 {
          err := NoErr;
        }
        return NONE;
      }
      match cur {
      case 1 =>
        if data[i] == ']' {
          t := CloseBracket(CloseArray);
          return;
        }
        cur := 2;
      case 2 =>
        if data[i] == ',' {
          i := i + 1;
          eof := SkipWhitespace();
          if eof { return NONE; }
        } else if data[i] == ']' {
          t := CloseBracket(CloseArray);
          return;
        } else {
          t := Errorf();
          return;
        }
      case 3 =>
        if data[i] == '}' {
          t := CloseBracket(CloseObject);
          return;
        }
        cur := 4;
        t := ReadString();
        return;
      case 4 =>
        if data[i] == ':' {
          i := i + 1;
          eof := SkipWhitespace();
          if eof { return NONE; }
        } else {
          t := Errorf();
          return;
        }
        cur := 5;
      case 5 =>
        if data[i] == ',' {
          i := i + 1;
          eof := SkipWhitespace();
          if eof { return NONE; }
          cur := 4;
          t := ReadString();
          return;
        } else if data[i] == '}' {
          t := CloseBracket(CloseObject);
          return;
        } else {
          t := Errorf();
          return;
        }
      case _ =>
      }
      t := ReadValue();
    }
  }
}
