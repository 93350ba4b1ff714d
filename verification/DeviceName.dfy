/** The label of a device, made of its name and its identifier, and back. */
module DeviceName {
  /** The pieces between the occurrences of c. */
  function Split(s: string, c: char): (pieces: seq<string>)
    ensures |pieces| >= 1
  {
    if s == "" then [""]
    else
      var rest := Split(s[1..], c);
      if s[0] == c then [""] + rest else [[s[0]] + rest[0]] + rest[1..]
  }

  function Join(pieces: seq<string>, c: char): string {
    if |pieces| == 0 then ""
    else if |pieces| == 1 then pieces[0]
    else pieces[0] + [c] + Join(pieces[1..], c)
  }

  predicate IsSpace(c: char) {
    c == ' ' || c == '\t' || c == '\n' || c == '\r' || c as int == 11 || c as int == 12
  }

  function StripLeft(s: string): string {
    if s != "" && IsSpace(s[0]) then StripLeft(s[1..]) else s
  }

  function StripRight(s: string): string {
    if s != "" && IsSpace(s[|s| - 1]) then StripRight(s[..|s| - 1]) else s
  }

  function Strip(s: string): string {
    StripRight(StripLeft(s))
  }

  function Format(name: string, identifier: string): string {
    name + " (" + identifier + ")"
  }

  function Parse(formatted: string): (string, string) {
    var tokens := Split(formatted, '(');
    var number := Split(tokens[|tokens| - 1], ')')[0];
    (Strip(Join(tokens[..|tokens| - 1], '(')), number)
  }

  /** The label is the name, a space, and the identifier in parentheses. */
  lemma {:induction false} FormatLayout(name: string, identifier: string)
    ensures var (f, n, i) := (Format(name, identifier), |name|, |identifier|);
            && |f| == n + i + 3
            && f[..n] == name && f[n] == ' ' && f[n + 1] == '('
            && f[n + 2..n + 2 + i] == identifier && f[n + 2 + i] == ')'
  {
  }

  // ----- Splitting and joining

  lemma {:induction false} SplitAtSeparator(a: string, c: char, b: string)
    ensures Split(a + [c] + b, c) == Split(a, c) + Split(b, c)
  {
    var s := a + [c] + b;
    if a == "" {
      assert s[0] == c && s[1..] == b;
    } else {
      assert s[0] == a[0] && s[1..] == a[1..] + [c] + b;
      SplitAtSeparator(a[1..], c, b);
    }
  }

  lemma {:induction false} SplitWithout(s: string, c: char)
    requires c !in s
    ensures Split(s, c) == [s]
  {
    if s == "" {
    } else {
      SplitWithout(s[1..], c);
      assert [s[0]] + s[1..] == s;
    }
  }

  lemma {:induction false} JoinSplit(s: string, c: char)
    ensures Join(Split(s, c), c) == s
  {
    if s == "" {
    } else {
      JoinSplit(s[1..], c);
      var rest := Split(s[1..], c);
      if s[0] == c {
        assert ([""] + rest)[1..] == rest;
      } else {
        assert ([[s[0]] + rest[0]] + rest[1..])[1..] == rest[1..];
      }
    }
  }

  lemma {:induction false} FirstPiece(s: string, c: char)
    ensures |Split(s, c)[0]| <= |s|
    ensures c in s ==> |Split(s, c)[0]| < |s|
  {
    if s == "" {
    } else {
      FirstPiece(s[1..], c);
    }
  }

  /** Some text around the last occurrence of c. */
  lemma {:induction false} LastOccurrence(s: string, c: char) returns (before: string, after: string)
    requires c in s
    ensures s == before + [c] + after && c !in after
  {
    if s[|s| - 1] == c {
      before, after := s[..|s| - 1], "";
    } else {
      before, after := LastOccurrence(s[..|s| - 1], c);
      after := after + [s[|s| - 1]];
    }
  }

  // ----- Stripping

  lemma {:induction false} StripLeftSpace(s: string)
    ensures StripLeft(s + " ") == if StripLeft(s) == "" then "" else StripLeft(s) + " "
  {
    if s == "" {
      assert s + " " == " " && " "[1..] == "";
    } else {
      assert (s + " ")[0] == s[0] && (s + " ")[1..] == s[1..] + " ";
      if IsSpace(s[0]) {
        StripLeftSpace(s[1..]);
      }
    }
  }

  lemma {:induction false} StripSpace(s: string)
    ensures Strip(s + " ") == Strip(s)
  {
    StripLeftSpace(s);
    var t := StripLeft(s);
    assert (t + " ")[..|t|] == t;
  }

  // ----- The round trip

  /** The last parenthesis that opens is the one that counts. */
  lemma {:induction false} ParseAtLast(before: string, after: string)
    requires '(' !in after
    ensures Parse(before + "(" + after + ")") == (Strip(before), Split(after, ')')[0])
  {
    var formatted := before + "(" + after + ")";
    assert formatted == before + ['('] + (after + ")");
    SplitAtSeparator(before, '(', after + ")");
    SplitWithout(after + ")", '(');
    JoinSplit(before, '(');
    var tokens := Split(formatted, '(');
    assert tokens[..|tokens| - 1] == Split(before, '(');
    assert after + ")" == after + [')'] + "";
    SplitAtSeparator(after, ')', "");
  }

  /**
   * The label gives back the name and the identifier exactly when the one is stripped and the other has no
   * parenthesis.
   */
  lemma {:induction false} RoundTripsExactly(name: string, identifier: string)
    ensures Parse(Format(name, identifier)) == (name, identifier)
       <==> Strip(name) == name && '(' !in identifier && ')' !in identifier
  {
    if '(' in identifier {
      var before, after := LastOccurrence(identifier, '(');
      assert Format(name, identifier) == (name + " (" + before) + "(" + after + ")";
      ParseAtLast(name + " (" + before, after);
      FirstPiece(after, ')');
    } else {
      assert Format(name, identifier) == (name + " ") + "(" + identifier + ")";
      ParseAtLast(name + " ", identifier);
      StripSpace(name);
      if ')' in identifier {
        FirstPiece(identifier, ')');
      } else {
        SplitWithout(identifier, ')');
      }
    }
  }
}
