/** Spreadsheet column names: bijective base 26 over the letters A to Z. */
module XlsxColumn {
  import opened Prelude

  predicate Letters(s: string) {
    forall i :: 0 <= i < |s| ==> 'A' <= s[i] <= 'Z'
  }

  /** The column a name denotes, counting from 1; the empty name denotes none. */
  function ColumnIndex(name: string): nat
    requires Letters(name)
  {
    if name == "" then 0 else ColumnIndex(Front(name)) * 26 + (Last(name) as int - 'A' as int + 1)
  }

  function Name(index: nat): string {
    if index == 0 then "" else Name((index - 1) / 26) + [('A' as int + (index - 1) % 26) as char]
  }

  lemma LetterAppended(high: string, low: nat)
    requires Letters(high) && low < 26
    ensures var name := high + [('A' as int + low) as char];
            Letters(name) && ColumnIndex(name) == ColumnIndex(high) * 26 + low + 1
  {
    assert Front(high + [('A' as int + low) as char]) == high;
  }

  lemma {:induction false} NameDenotes(index: nat)
    ensures Letters(Name(index)) && ColumnIndex(Name(index)) == index && (index > 0 ==> Name(index) != "")
  {
    if index > 0 {
      var high, low := (index - 1) / 26, (index - 1) % 26;
      NameDenotes(high);
      LetterAppended(Name(high), low);
    }
  }

  lemma {:induction false} IndexNames(name: string)
    requires Letters(name)
    ensures Name(ColumnIndex(name)) == name
  {
    if name != "" {
      var high, low := ColumnIndex(Front(name)), Last(name) as int - 'A' as int;
      IndexNames(Front(name));
      assert (ColumnIndex(name) - 1) / 26 == high && (ColumnIndex(name) - 1) % 26 == low by {
        assert ColumnIndex(name) - 1 == high * 26 + low;
      }
      assert name == Front(name) + [Last(name)];
    }
  }

  /** Names and positive indices correspond one to one. */
  lemma NamesAreBijective(index: nat, name: string)
    requires Letters(name)
    ensures Name(index) == name <==> ColumnIndex(name) == index
  {
    NameDenotes(index);
    IndexNames(name);
  }

  method XlsxColumnName(index: int) returns (name: string)
    ensures index <= 0 ==> name == ""
    ensures index > 0 ==> name != "" && Letters(name) && ColumnIndex(name) == index
  {
    name := "";
    var rest := index;
    while rest > 0
      invariant index > 0 ==> rest >= 0 && Name(index) == Name(rest) + name
      invariant index <= 0 ==> name == ""
      decreases rest
    {
      rest := rest - 1;
      assert Name(rest + 1) + name == Name(rest / 26) + ([('A' as int + rest % 26) as char] + name);
      name := [('A' as int + rest % 26) as char] + name;
      rest := rest / 26;
    }
    if index > 0 {
      assert Name(0) + name == name;
      NameDenotes(index);
    }
  }
}
