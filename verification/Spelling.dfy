/** The two spellings of a field: `updated_at` by its column, `updatedAt` by its name (worker/src/fold.ts). */
module Spelling {
  import opened Types
  import opened FoldRule

  /** A field name whose two spellings name each other. */
  predicate Tidy(name: string) {
    OtherSpelling(OtherSpelling(name)) == name
  }

  lemma {:induction false} CamelOfColumn(name: string)
    requires '_' !in name
    ensures Camel(Column(name)) == name
    ensures (exists c | c in name :: IsUpper(c)) ==> '_' in Column(name)
  {
    if name != "" {
      var rest := name[1..];
      CamelOfColumn(rest);
      var column := Column(name);
      if IsUpper(name[0]) {
        assert column[2..] == Column(rest) && ToUpper(column[1]) == name[0];
        assert column[0] == '_';
      } else {
        assert column[1..] == Column(rest) && column[0] == name[0];
        assert forall c | c in name :: c == name[0] || c in rest;
      }
    }
  }

  /** Every name without an underscore is one. */
  lemma CamelIsTidy(name: string)
    requires '_' !in name
    ensures Tidy(name)
  {
    CamelOfColumn(name);
  }

  lemma {:induction false} CamelShows(name: string)
    ensures Camel(name) != name ==> exists c | c in Camel(name) :: IsUpper(c)
  {
    if name != "" {
      var camel := Camel(name);
      if |name| >= 2 && name[0] == '_' && IsLower(name[1]) {
        assert camel[0] == ToUpper(name[1]) && camel[0] in camel && IsUpper(camel[0]);
      } else {
        CamelShows(name[1..]);
        assert camel == [name[0]] + Camel(name[1..]);
        assert name == [name[0]] + name[1..];
        assert forall c | c in Camel(name[1..]) :: c in camel;
      }
    }
  }

  /** No name of small letters alone is dropped for another name's sake. */
  lemma SmallNameKept(payload: Fields, name: string)
    requires forall c | c in name :: !IsUpper(c)
    ensures Get(ColumnSpellingWins(payload), name) == Get(payload, name)
  {
    forall key | key in payload && '_' in key && OtherSpelling(key) != key ensures OtherSpelling(key) != name {
      CamelShows(key);
    }
  }

  // ----- What the other spelling of a name is ---------------------------------------------

  predicate Small(text: string) {
    forall c | c in text :: IsLower(c)
  }

  /** The words of a field's name, all in small letters. */
  predicate Words(words: seq<string>) {
    forall i | 0 <= i < |words| :: words[i] != "" && Small(words[i])
  }

  /** Each word after an underscore. */
  function Snake(words: seq<string>): string {
    if words == [] then "" else ['_'] + words[0] + Snake(words[1..])
  }

  /** Each word with a capital. */
  function Humps(words: seq<string>): string
    requires Words(words)
  {
    if words == [] then "" else [ToUpper(words[0][0])] + words[0][1..] + Humps(words[1..])
  }

  lemma {:induction false} ColumnOfSmall(head: string, rest: string)
    requires Small(head)
    ensures Column(head + rest) == head + Column(rest)
  {
    if head == "" {
      assert head + rest == rest;
    } else {
      assert head[0] in head;
      assert (head + rest)[1..] == head[1..] + rest;
      ColumnOfSmall(head[1..], rest);
    }
  }

  lemma {:induction false} CamelOfSmall(head: string, rest: string)
    requires Small(head)
    ensures Camel(head + rest) == head + Camel(rest)
  {
    if head == "" {
      assert head + rest == rest;
    } else {
      assert head[0] in head;
      assert (head + rest)[1..] == head[1..] + rest;
      CamelOfSmall(head[1..], rest);
    }
  }

  lemma ColumnUpper(c: char, rest: string)
    requires IsLower(c)
    ensures Column([ToUpper(c)] + rest) == ['_', c] + Column(rest)
  {
    assert ([ToUpper(c)] + rest)[1..] == rest;
  }

  lemma CamelUnderscore(c: char, rest: string)
    requires IsLower(c)
    ensures Camel(['_', c] + rest) == [ToUpper(c)] + Camel(rest)
  {
    assert (['_', c] + rest)[2..] == rest;
  }

  /** A word that follows, with a capital in a name and after an underscore in a column. */
  lemma WordSpelled(word: string, name: string, column: string)
    requires word != "" && Small(word)
    ensures Column([ToUpper(word[0])] + word[1..] + name) == ['_'] + word + Column(name)
    ensures Camel(['_'] + word + column) == [ToUpper(word[0])] + word[1..] + Camel(column)
  {
    hide Column, Camel;
    var tail := word[1..];
    assert word == [word[0]] + tail && Small(tail);
    ColumnUpper(word[0], tail + name);
    ColumnOfSmall(tail, name);
    CamelUnderscore(word[0], tail + column);
    CamelOfSmall(tail, column);
    assert [ToUpper(word[0])] + tail + name == [ToUpper(word[0])] + (tail + name);
    assert ['_'] + word + column == ['_', word[0]] + (tail + column);
    assert ['_', word[0]] + (tail + Column(name)) == ['_'] + word + Column(name);
  }

  lemma {:induction false} HumpsSpelled(words: seq<string>)
    requires Words(words)
    ensures Column(Humps(words)) == Snake(words) && Camel(Snake(words)) == Humps(words)
  {
    if words != [] {
      WordSpelled(words[0], Humps(words[1..]), Snake(words[1..]));
      HumpsSpelled(words[1..]);
    }
  }

  /** A name of one word is its own other spelling; one of more is its column's, and the column is its. */
  lemma SpellingsMeet(first: string, rest: seq<string>)
    requires Small(first) && Words(rest)
    ensures rest == [] ==> OtherSpelling(first) == first
    ensures rest != [] ==> OtherSpelling(first + Humps(rest)) == first + Snake(rest)
    ensures rest != [] ==> OtherSpelling(first + Snake(rest)) == first + Humps(rest)
  {
    var name, column := first + Humps(rest), first + Snake(rest);
    ColumnOfSmall(first, Humps(rest));
    CamelOfSmall(first, Snake(rest));
    HumpsSpelled(rest);
    if rest != [] {
      HumpsHaveNoUnderscore(rest);
      assert rest[0][0] in rest[0];
      assert name[|first|] == ToUpper(rest[0][0]) && column[|first|] == '_';
      assert name[|first|] in name && column[|first|] in column;
    }
  }

  lemma {:induction false} HumpsHaveNoUnderscore(words: seq<string>)
    requires Words(words)
    ensures '_' !in Humps(words)
  {
    if words != [] {
      var word := words[0];
      assert word[0] in word;
      assert forall c | c in word[1..] :: c in word;
      HumpsHaveNoUnderscore(words[1..]);
    }
  }

  // ----- Which keys drop a name -----------------------------------------------------------

  /** A key whose field's name begins so begins with the same hump, or with an underscore and its small letter. */
  lemma {:induction false} Peel(key: string, head: string, hump: char, tail: string) returns (rest: string)
    requires Small(head) && IsUpper(hump) && Camel(key) == head + ([hump] + tail)
    ensures Camel(rest) == tail
    ensures key == head + ([hump] + rest) || key == head + (['_', ToLower(hump)] + rest)
  {
    hide Camel;
    if head == "" {
      assert head + ([hump] + tail) == [hump] + tail;
      rest := PeelFirst(key, hump, tail);
      assert head + ([hump] + rest) == [hump] + rest && head + (['_', ToLower(hump)] + rest) == ['_', ToLower(hump)] + rest;
    } else {
      assert head[0] in head && head == [head[0]] + head[1..];
      CamelStep(key, head[0], head[1..] + ([hump] + tail));
      rest := Peel(key[1..], head[1..], hump, tail);
      assert [head[0]] + (head[1..] + ([hump] + rest)) == head + ([hump] + rest);
      assert [head[0]] + (head[1..] + (['_', ToLower(hump)] + rest)) == head + (['_', ToLower(hump)] + rest);
    }
  }

  lemma CamelStep(key: string, first: char, rest: string)
    requires IsLower(first) && Camel(key) == [first] + rest
    ensures key != "" && key == [first] + key[1..] && Camel(key[1..]) == rest
  {
    assert key != "" && Camel(key)[0] == first;
    assert key[0] == first;
    assert Camel(key)[1..] == Camel(key[1..]);
  }

  lemma PeelFirst(key: string, hump: char, tail: string) returns (rest: string)
    requires IsUpper(hump) && Camel(key) == [hump] + tail
    ensures Camel(rest) == tail && (key == [hump] + rest || key == ['_', ToLower(hump)] + rest)
  {
    assert key != "" && Camel(key)[0] == hump;
    rest := if key[0] == hump then key[1..] else key[2..];
    assert Camel(key)[1..] == Camel(rest);
  }

  /** What is a small name's other spelling is that name. */
  lemma CamelIsSmall(key: string, name: string)
    requires Camel(key) == name && (forall c | c in name :: !IsUpper(c))
    ensures key == name
  {
    CamelShows(key);
  }

  /** A key with no capital and no underscore is its own other spelling, and no other key's. */
  lemma OneWord(name: string)
    requires Small(name)
    ensures Column(name) == name && forall key | key != name :: OtherSpelling(key) != name
  {
    ColumnOfSmall(name, "");
    assert name + "" == name;
    forall key | key != name ensures OtherSpelling(key) != name {
      if '_' in key {
        CamelShows(key);
      } else {
        CamelOfColumn(key);
      }
    }
  }

  lemma TwoWords(head: string, hump: char, tail: string, name: string, column: string)
    requires Small(head) && IsUpper(hump) && Small(tail)
    requires name == head + ([hump] + tail) && column == head + (['_', ToLower(hump)] + tail)
    ensures Column(name) == column && Camel(column) == name
    ensures OtherSpelling(name) == column && OtherSpelling(column) == name
    ensures forall key | key != name && key != column :: OtherSpelling(key) != name && OtherSpelling(key) != column
  {
    hide Column, Camel;
    HumpSpellings(head, hump, tail);
    assert name[|head|] == hump && column[|head|] == '_';
    assert hump in name && '_' in column;
    assert forall c | c in tail || c in head :: IsLower(c);
    assert forall c | c in name :: c in head || c == hump || c in tail;
    assert forall c | c in column :: c in head || c == '_' || c == ToLower(hump) || c in tail;
    forall key | key != name && key != column ensures OtherSpelling(key) != name && OtherSpelling(key) != column {
      OneHump(key, head, hump, tail);
      if '_' in key {
        CamelShows(key);
      } else {
        CamelOfColumn(key);
      }
    }
  }

  lemma HumpSpellings(head: string, hump: char, tail: string)
    requires Small(head) && IsUpper(hump) && Small(tail)
    ensures Column(head + ([hump] + tail)) == head + (['_', ToLower(hump)] + tail)
    ensures Camel(head + (['_', ToLower(hump)] + tail)) == head + ([hump] + tail)
  {
    HumpThen(head, hump, tail, tail);
    assert tail + "" == tail;
    ColumnOfSmall(tail, "");
    CamelOfSmall(tail, "");
  }

  lemma OneHump(key: string, head: string, hump: char, tail: string)
    requires Small(head) && IsUpper(hump) && Small(tail)
    ensures Camel(key) == head + ([hump] + tail) ==> key == head + ([hump] + tail) || key == head + (['_', ToLower(hump)] + tail)
  {
    if Camel(key) == head + ([hump] + tail) {
      var rest := Peel(key, head, hump, tail);
      CamelIsSmall(rest, tail);
    }
  }

  /** A name, or a column, or what has its first hump written either way. */
  lemma HumpThen(head: string, hump: char, rest: string, low: string)
    requires Small(head) && IsUpper(hump)
    ensures Column(head + ([hump] + rest)) == head + (['_', ToLower(hump)] + Column(rest))
    ensures Camel(head + (['_', ToLower(hump)] + low)) == head + ([hump] + Camel(low))
    ensures Camel(head + ([hump] + low)) == head + ([hump] + Camel(low))
  {
    hide Camel, Column;
    ColumnOfSmall(head, [hump] + rest);
    ColumnUpper(ToLower(hump), rest);
    CamelOfSmall(head, ['_', ToLower(hump)] + low);
    CamelUnderscore(ToLower(hump), low);
    CamelOfSmall(head, [hump] + low);
    CamelLetter(hump, low);
  }

  lemma CamelLetter(c: char, rest: string)
    requires c != '_'
    ensures Camel([c] + rest) == [c] + Camel(rest)
  {
    assert ([c] + rest)[1..] == rest;
  }

  lemma {:induction false} CamelPlain(name: string)
    requires '_' !in name
    ensures Camel(name) == name
  {
    if name != "" {
      CamelPlain(name[1..]);
    }
  }

  lemma {:induction false} CamelHasNoColumn(key: string, i: nat)
    requires i + 1 < |Camel(key)| && Camel(key)[i] == '_'
    ensures !IsLower(Camel(key)[i + 1])
  {
    var n := if |key| >= 2 && key[0] == '_' && IsLower(key[1]) then 2 else 1;
    assert Camel(key)[1..] == Camel(key[n..]);
    if i > 0 {
      assert Camel(key)[1..][i - 1] == '_';
      CamelHasNoColumn(key[n..], i - 1);
    } else {
      assert Camel(key)[1] == Camel(key[1..])[0];
    }
  }
}
