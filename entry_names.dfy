/** The attribute names of the top-level GUI (retirement_calculator_gui.py):
    `add_label_entry` stores each input field under a name derived from its
    label, and `calculate` reads the fields back under fixed names. For the
    five percentage labels the two disagree. */
module EntryNames {

  /** ASCII `str.lower` of one character. */
  function LowerChar(c: char): char
  {
    if 'A' <= c <= 'Z' then (c as int + 32) as char else c
  }

  /** `str.lower` on ASCII text: upper-case letters become lower-case,
      everything else is kept. */
  function Lower(s: string): string
  {
    seq(|s|, i requires 0 <= i < |s| => LowerChar(s[i]))
  }

  /** `s.replace(pattern, replacement)`: every occurrence of the pattern,
      found left to right without overlap, is replaced. */
  function ReplaceAll(s: string, pattern: string, replacement: string): string
    requires |pattern| > 0
    decreases |s|
  {
    if s == [] then []
    else if pattern <= s then replacement + ReplaceAll(s[|pattern|..], pattern, replacement)
    else [s[0]] + ReplaceAll(s[1..], pattern, replacement)
  }

  /** Replacing never brings in a character that neither the text nor the
      replacement holds. */
  lemma {:induction false} ReplaceKeepsAbsent(s: string, pattern: string, replacement: string, c: char)
    requires |pattern| > 0 && c !in s && c !in replacement
    ensures c !in ReplaceAll(s, pattern, replacement)
  {
    if s != [] {
      if pattern <= s {
        ReplaceKeepsAbsent(s[|pattern|..], pattern, replacement, c);
      } else {
        ReplaceKeepsAbsent(s[1..], pattern, replacement, c);
      }
    }
  }

  /** Replacing a one-character pattern removes that character, unless the
      replacement brings it back. */
  lemma {:induction false} ReplaceRemovesChar(s: string, c: char, replacement: string)
    requires c !in replacement
    ensures c !in ReplaceAll(s, [c], replacement)
  {
    if s != [] {
      ReplaceRemovesChar(s[1..], c, replacement);
    }
  }

  /** The name `add_label_entry` gives the entry of a label: lower-cased,
      spaces to underscores, `(%):` to `_entry`, colons dropped, and `_entry`
      appended. Whatever the label, the name ends in `_entry` and holds no
      space and no colon. */
  function AttributeName(text: string): (name: string)
    ensures |name| >= 6 && name[|name| - 6..] == "_entry"
    ensures ' ' !in name && ':' !in name
  {
    var lowered := Lower(text);
    var underscored := ReplaceAll(lowered, " ", "_");
    var percent := ReplaceAll(underscored, "(%):", "_entry");
    var stripped := ReplaceAll(percent, ":", "");
    ReplaceRemovesChar(lowered, ' ', "_");
    ReplaceKeepsAbsent(underscored, "(%):", "_entry", ' ');
    ReplaceKeepsAbsent(percent, ":", "", ' ');
    ReplaceRemovesChar(percent, ':', "");
    stripped + "_entry"
  }

  /** A text in which no occurrence of the pattern can start is left as it is. */
  lemma {:induction false} ReplaceAbsent(s: string, pattern: string, replacement: string)
    requires |pattern| > 0 && pattern[0] !in s
    ensures ReplaceAll(s, pattern, replacement) == s
  {
    if s != [] {
      assert s[0] != pattern[0];
      ReplaceAbsent(s[1..], pattern, replacement);
      assert s == [s[0]] + s[1..];
    }
  }

  /** A text with no possible start of the pattern can be split off the front:
      replacing in `a + b` is replacing in `b` behind an unchanged `a`. */
  lemma {:induction false} ReplaceAfterPrefix(a: string, b: string, pattern: string, replacement: string)
    requires |pattern| > 0 && pattern[0] !in a
    ensures ReplaceAll(a + b, pattern, replacement) == a + ReplaceAll(b, pattern, replacement)
  {
    if a != [] {
      var s := a + b;
      assert s[0] == a[0] != pattern[0];
      assert !(pattern <= s);
      assert s[1..] == a[1..] + b;
      ReplaceAfterPrefix(a[1..], b, pattern, replacement);
      calc {
        ReplaceAll(s, pattern, replacement);
        [s[0]] + ReplaceAll(s[1..], pattern, replacement);
        [a[0]] + (a[1..] + ReplaceAll(b, pattern, replacement));
        { assert a == [a[0]] + a[1..]; }
        a + ReplaceAll(b, pattern, replacement);
      }
    } else {
      assert a + b == b;
    }
  }

  /** A label's characters as they stand after lower-casing and turning
      spaces into underscores. */
  function SnakeChar(c: char): char
  {
    if c == ' ' then '_' else LowerChar(c)
  }

  function Snake(s: string): string
  {
    seq(|s|, i requires 0 <= i < |s| => SnakeChar(s[i]))
  }

  /** `text.lower().replace(' ', '_')` changes the text character by character. */
  lemma {:induction false} LowerThenUnderscore(s: string)
    ensures ReplaceAll(Lower(s), " ", "_") == Snake(s)
  {
    if s != [] {
      var lowered := Lower(s);
      assert lowered[1..] == Lower(s[1..]);
      LowerThenUnderscore(s[1..]);
      assert lowered[0] == LowerChar(s[0]);
      if s[0] == ' ' {
        assert " " <= lowered;
      } else {
        assert lowered[0] != ' ';
      }
      assert Snake(s) == [SnakeChar(s[0])] + Snake(s[1..]);
    }
  }

  lemma SnakeAppend(a: string, b: string)
    ensures Snake(a + b) == Snake(a) + Snake(b)
  {
    assert forall i :: 0 <= i < |a + b| ==> Snake(a + b)[i] == (Snake(a) + Snake(b))[i];
  }

  /** Lower-casing and underscoring bring in only letters and underscores. */
  lemma SnakeKeepsAbsent(s: string, c: char)
    requires c !in s && c != '_' && !('a' <= c <= 'z')
    ensures c !in Snake(s)
  {
  }

  /** A label without a percent sign, `words:`, becomes `words_entry`. */
  lemma PlainLabelName(words: string, colon: string)
    requires '(' !in words && ':' !in words && colon == ":"
    ensures AttributeName(words + colon) == Snake(words) + "_entry"
  {
    var snake := Snake(words);
    LowerThenUnderscore(words + colon);
    SnakeAppend(words, colon);
    assert Snake(colon) == colon;
    SnakeKeepsAbsent(words, '(');
    SnakeKeepsAbsent(words, ':');
    ReplaceAbsent(snake + colon, "(%):", "_entry");
    ReplaceAfterPrefix(snake, colon, colon, "");
    assert ReplaceAll(colon, colon, "") == "";
    assert snake + "" == snake;
  }

  /** A percentage label, `words (%):`, becomes `words__entry_entry`: the
      space before the parenthesis has already turned into an underscore when
      `(%):` is replaced by `_entry`, and `_entry` is appended once more. */
  lemma PercentLabelName(words: string, suffix: string)
    requires '(' !in words && ':' !in words && suffix == " (%):"
    ensures AttributeName(words + suffix) == Snake(words) + "__entry_entry"
  {
    var snake := Snake(words);
    var percent, entry := "(%):", "_entry";
    var head := snake + "_";
    var underscored := ReplaceAll(Lower(words + suffix), " ", "_");
    assert underscored == head + percent by {
      LowerThenUnderscore(words + suffix);
      SnakeAppend(words, suffix);
      SnakeOfPercentSuffix(suffix);
    }
    assert ':' !in head && '(' !in head by {
      SnakeKeepsAbsent(words, '(');
      SnakeKeepsAbsent(words, ':');
    }
    var replaced := ReplaceAll(underscored, percent, entry);
    assert replaced == head + entry by {
      ReplaceAfterPrefix(head, percent, percent, entry);
      assert ReplaceAll(percent, percent, entry) == entry;
    }
    assert ReplaceAll(replaced, ":", "") == replaced by {
      EntrySuffixFacts(snake, entry);
      ReplaceAbsent(replaced, ":", "");
    }
    EntrySuffixFacts(snake, entry);
  }

  lemma EntrySuffixFacts(snake: string, entry: string)
    requires entry == "_entry" && ':' !in snake + "_"
    ensures ':' !in (snake + "_") + entry
    ensures ((snake + "_") + entry) + entry == snake + "__entry_entry"
  {
  }

  lemma SnakeOfPercentSuffix(suffix: string)
    requires suffix == " (%):"
    ensures Snake(suffix) == "_(%):"
  {
    assert SnakeChar(' ') == '_';
    assert SnakeChar('(') == '(' && SnakeChar('%') == '%' && SnakeChar(')') == ')' && SnakeChar(':') == ':';
  }

  /** The words of the ten labels of `create_widgets`, in row order. */
  const LabelWords: seq<string> := [
    "Current Age", "Retirement Age", "Life Expectancy", "Current Income",
    "Salary Increase", "Current Savings", "Annual Contribution",
    "Employer Match", "Employer Match Limit", "Expected Return"
  ]

  /** The rows whose label ends in ` (%):` rather than in `:`. */
  const PercentRows: set<int> := {4, 6, 7, 8, 9}

  /** The label of a row, for instance `Current Age:` or `Salary Increase (%):`. */
  function Label(row: int): string
    requires 0 <= row < |LabelWords|
  {
    LabelWords[row] + (if row in PercentRows then " (%):" else ":")
  }

  /** The attributes `calculate` reads, one per row. */
  const NamesRead: seq<string> := [
    "current_age_entry", "retirement_age_entry", "life_expectancy_entry", "current_income_entry",
    "salary_increase_entry", "current_savings_entry", "annual_contrib_entry",
    "employer_match_entry", "employer_match_limit_entry", "expected_return_entry"
  ]

  /** The label words lower-cased and joined by underscores. */
  const SnakeWords: seq<string> := [
    "current_age", "retirement_age", "life_expectancy", "current_income",
    "salary_increase", "current_savings", "annual_contribution",
    "employer_match", "employer_match_limit", "expected_return"
  ]

  /** The names `add_label_entry` gives the rows. */
  const NamesGiven: seq<string> := [
    "current_age_entry", "retirement_age_entry", "life_expectancy_entry", "current_income_entry",
    "salary_increase__entry_entry", "current_savings_entry", "annual_contribution__entry_entry",
    "employer_match__entry_entry", "employer_match_limit__entry_entry", "expected_return__entry_entry"
  ]

  /** One row's name, worked out from the shape of its label. */
  lemma RowName(row: int)
    requires 0 <= row < |LabelWords|
    requires '(' !in LabelWords[row] && ':' !in LabelWords[row] && Snake(LabelWords[row]) == SnakeWords[row]
    requires NamesGiven[row] == SnakeWords[row] + (if row in PercentRows then "__entry_entry" else "_entry")
    ensures AttributeName(Label(row)) == NamesGiven[row]
    ensures AttributeName(Label(row)) == SnakeWords[row] + (if row in PercentRows then "__entry_entry" else "_entry")
  {
    if row in PercentRows {
      PercentLabelName(LabelWords[row], " (%):");
    } else {
      PlainLabelName(LabelWords[row], ":");
    }
  }

  // One lemma per row keeps each computation on a concrete label small.

  lemma CurrentAgeRow()
    ensures AttributeName(Label(0)) == NamesGiven[0]
    ensures AttributeName(Label(0)) == SnakeWords[0] + (if 0 in PercentRows then "__entry_entry" else "_entry")
  {
    RowName(0);
  }

  lemma RetirementAgeRow()
    ensures AttributeName(Label(1)) == NamesGiven[1]
    ensures AttributeName(Label(1)) == SnakeWords[1] + (if 1 in PercentRows then "__entry_entry" else "_entry")
  {
    RowName(1);
  }

  lemma LifeExpectancyRow()
    ensures AttributeName(Label(2)) == NamesGiven[2]
    ensures AttributeName(Label(2)) == SnakeWords[2] + (if 2 in PercentRows then "__entry_entry" else "_entry")
  {
    RowName(2);
  }

  lemma CurrentIncomeRow()
    ensures AttributeName(Label(3)) == NamesGiven[3]
    ensures AttributeName(Label(3)) == SnakeWords[3] + (if 3 in PercentRows then "__entry_entry" else "_entry")
  {
    RowName(3);
  }

  lemma SalaryIncreaseRow()
    ensures AttributeName(Label(4)) == NamesGiven[4]
    ensures AttributeName(Label(4)) == SnakeWords[4] + (if 4 in PercentRows then "__entry_entry" else "_entry")
  {
    RowName(4);
  }

  lemma CurrentSavingsRow()
    ensures AttributeName(Label(5)) == NamesGiven[5]
    ensures AttributeName(Label(5)) == SnakeWords[5] + (if 5 in PercentRows then "__entry_entry" else "_entry")
  {
    RowName(5);
  }

  lemma AnnualContributionRow()
    ensures AttributeName(Label(6)) == NamesGiven[6]
    ensures AttributeName(Label(6)) == SnakeWords[6] + (if 6 in PercentRows then "__entry_entry" else "_entry")
  {
    RowName(6);
  }

  lemma EmployerMatchRow()
    ensures AttributeName(Label(7)) == NamesGiven[7]
    ensures AttributeName(Label(7)) == SnakeWords[7] + (if 7 in PercentRows then "__entry_entry" else "_entry")
  {
    RowName(7);
  }

  lemma EmployerMatchLimitRow()
    ensures AttributeName(Label(8)) == NamesGiven[8]
    ensures AttributeName(Label(8)) == SnakeWords[8] + (if 8 in PercentRows then "__entry_entry" else "_entry")
  {
    RowName(8);
  }

  lemma ExpectedReturnRow()
    ensures AttributeName(Label(9)) == NamesGiven[9]
    ensures AttributeName(Label(9)) == SnakeWords[9] + (if 9 in PercentRows then "__entry_entry" else "_entry")
  {
    RowName(9);
  }

  /** The names given to the rows without a percent sign are the names read. */
  lemma PlainNamesRead()
    ensures forall row :: 0 <= row < |NamesGiven| && row !in PercentRows ==> NamesGiven[row] == NamesRead[row]
  {
  }

  /** The rows without a percent sign get exactly the name `calculate` reads. */
  lemma PlainLabelsMatch()
    ensures forall row :: 0 <= row < |LabelWords| && row !in PercentRows ==> AttributeName(Label(row)) == NamesRead[row]
  {
    forall row | 0 <= row < |LabelWords| && row !in PercentRows
      ensures AttributeName(Label(row)) == NamesRead[row]
    {
      RowNameAt(row);
      PlainNamesRead();
    }
  }

  /** Any row's name, from the lemma for that row. */
  lemma RowNameAt(row: int)
    requires 0 <= row < |LabelWords|
    ensures AttributeName(Label(row)) == NamesGiven[row]
    ensures AttributeName(Label(row)) == SnakeWords[row] + (if row in PercentRows then "__entry_entry" else "_entry")
  {
    if row == 0 {
      CurrentAgeRow();
    } else if row == 1 {
      RetirementAgeRow();
    } else if row == 2 {
      LifeExpectancyRow();
    } else if row == 3 {
      CurrentIncomeRow();
    } else if row == 4 {
      SalaryIncreaseRow();
    } else if row == 5 {
      CurrentSavingsRow();
    } else if row == 6 {
      AnnualContributionRow();
    } else if row == 7 {
      EmployerMatchRow();
    } else if row == 8 {
      EmployerMatchLimitRow();
    } else {
      ExpectedReturnRow();
    }
  }

  /** None of the names given to the percentage rows is read. */
  lemma PercentNamesUnread()
    ensures forall row :: row in PercentRows ==> 0 <= row < |NamesGiven| && NamesGiven[row] !in NamesRead
  {
  }

  lemma GivenNamesDistinct()
    ensures forall i, j :: 0 <= i < j < |NamesGiven| ==> NamesGiven[i] != NamesGiven[j]
  {
  }

  /** The percentage rows get names with a doubled entry suffix, and none of
      them is a name `calculate` reads: reading those fields fails. */
  lemma PercentLabelsMissed()
    ensures forall row :: row in PercentRows ==>
              0 <= row < |LabelWords| && AttributeName(Label(row)) == SnakeWords[row] + "__entry_entry" &&
              AttributeName(Label(row)) !in NamesRead
  {
    forall row | row in PercentRows
      ensures 0 <= row < |LabelWords| && AttributeName(Label(row)) == SnakeWords[row] + "__entry_entry"
      ensures AttributeName(Label(row)) !in NamesRead
    {
      RowNameAt(row);
      PercentNamesUnread();
    }
  }

  /** The ten labels get ten different names, so no entry replaces another. */
  lemma NamesDistinct()
    ensures forall i, j :: 0 <= i < j < |LabelWords| ==> AttributeName(Label(i)) != AttributeName(Label(j))
  {
    forall i, j | 0 <= i < j < |LabelWords|
      ensures AttributeName(Label(i)) != AttributeName(Label(j))
    {
      RowNameAt(i);
      RowNameAt(j);
      GivenNamesDistinct();
    }
  }
}
