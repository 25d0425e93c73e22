/** JSON as values: what `json.loads` returns and `json.dumps` takes. */
module Json {
  datatype Value = Null | Bool(flag: bool) | Number(number: int) | Text(text: string)
                 | Array(items: seq<Value>) | Object(fields: map<string, Value>)

  type Fields = map<string, Value>

  function Texts(strings: seq<string>): Value {
    Array(seq(|strings|, i requires 0 <= i < |strings| => Text(strings[i])))
  }

  predicate AllTexts(items: seq<Value>) {
    forall i | 0 <= i < |items| :: items[i].Text?
  }

  function Strings(items: seq<Value>): seq<string>
    requires AllTexts(items)
  {
    seq(|items|, i requires 0 <= i < |items| => items[i].text)
  }

  lemma StringsOfTexts(strings: seq<string>)
    ensures AllTexts(Texts(strings).items) && Strings(Texts(strings).items) == strings
  {
  }

  lemma TextsOfStrings(items: seq<Value>)
    requires AllTexts(items)
    ensures Texts(Strings(items)) == Array(items)
  {
    assert Texts(Strings(items)).items == items;
  }
}
