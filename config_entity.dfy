/**
 * The `configs` table's row (models/db.py). `key`, `value` and `type` are NOT NULL
 * string columns; a Dafny `string` has no null, so every Config already satisfies
 * those constraints. `type` is a Dafny keyword, so the column is the field `kind`.
 * Key uniqueness is a property of the whole table, stated as `Store.Keyed`.
 */
module ConfigEntity {
  import opened Wrappers
  import opened Strings

  /** The column default of `type`. */
  const DefaultType: string := "string"

  datatype Config = Config(key: string, value: string, kind: string)

  /** The row a successful INSERT stores: a `type` left out takes the column default. */
  function NewConfig(key: string, value: string, kind: string := DefaultType): Config
  {
    Config(key, value, kind)
  }

  lemma TypeDefaultsToString(key: string, value: string)
    ensures NewConfig(key, value) == Config(key, value, "string")
  {
  }

  const ReprOpen: string := "<Config(key='"
  const ReprClose: string := "')>"

  /** `Config.__repr__`: `<Config(key='K', value='V', type='T')>`. */
  function Repr(c: Config): string
  {
    ReprOpen + ReprFields(c) + ReprClose
  }

  /** The part of `Repr` between the fixed opening and closing text. */
  function ReprFields(c: Config): string
  {
    c.key + "', value='" + c.value + "', type='" + c.kind
  }

  /** None of the three fields contains a single quote, the delimiter `Repr` uses. */
  predicate NoQuote(c: Config)
  {
    '\'' !in c.key && '\'' !in c.value && '\'' !in c.kind
  }

  /** Reads back a string produced by `Repr`. */
  function ParseRepr(s: string): Option<Config>
  {
    if |s| >= |ReprOpen| + |ReprClose| && s[..|ReprOpen|] == ReprOpen && s[|s| - |ReprClose|..] == ReprClose then
      var parts := Split(s[|ReprOpen|..|s| - |ReprClose|], '\'');
      if |parts| == 5 && parts[1] == ", value=" && parts[3] == ", type=" then
        Some(Config(parts[0], parts[2], parts[4]))
      else
        None
    else
      None
  }

  /** The pieces `Split` recovers from the middle of `Repr`. */
  function FieldPieces(c: Config): seq<string>
  {
    [c.key, ", value=", c.value, ", type=", c.kind]
  }

  lemma FieldsAreJoin(c: Config)
    ensures Join(FieldPieces(c), '\'') == ReprFields(c)
  {
    var q := '\'';
    var ps := FieldPieces(c);
    assert ps[4..] == [c.kind];
    assert Join(ps[3..], q) == ", type=" + [q] + c.kind;
    assert Join(ps[2..], q) == c.value + [q] + ", type=" + [q] + c.kind;
    assert Join(ps[1..], q) == ", value=" + [q] + c.value + [q] + ", type=" + [q] + c.kind;
    assert Join(ps, q) == c.key + [q] + ", value=" + [q] + c.value + [q] + ", type=" + [q] + c.kind;
  }

  /** For quote-free fields, `ParseRepr` undoes `Repr`. */
  lemma ParseReprInverse(c: Config)
    requires NoQuote(c)
    ensures ParseRepr(Repr(c)) == Some(c)
  {
    var s := Repr(c);
    assert s[..|ReprOpen|] == ReprOpen;
    assert s[|s| - |ReprClose|..] == ReprClose;
    assert s[|ReprOpen|..|s| - |ReprClose|] == ReprFields(c);
    FieldsAreJoin(c);
    SplitUnique(ReprFields(c), '\'', FieldPieces(c));
  }

  /** Everything `ParseRepr` accepts is the `Repr` of the quote-free row it returns. */
  lemma ReprOfParse(s: string, c: Config)
    requires ParseRepr(s) == Some(c)
    ensures NoQuote(c) && Repr(c) == s
  {
    var middle := s[|ReprOpen|..|s| - |ReprClose|];
    var parts := Split(middle, '\'');
    assert parts == FieldPieces(c);
    FieldsAreJoin(c);
    assert middle == ReprFields(c);
    assert s == s[..|ReprOpen|] + middle + s[|s| - |ReprClose|..];
  }

  /** Quote-free rows with the same `Repr` are the same row. */
  lemma ReprInjective(c1: Config, c2: Config)
    requires NoQuote(c1) && NoQuote(c2)
    requires Repr(c1) == Repr(c2)
    ensures c1 == c2
  {
    ParseReprInverse(c1);
    ParseReprInverse(c2);
  }

  /** Without the quote-free condition two different rows can print the same. */
  lemma ReprNotInjective()
    ensures Repr(Config("x', value='y", "z", DefaultType)) == Repr(Config("x", "y', value='z", DefaultType))
    ensures Config("x', value='y", "z", DefaultType) != Config("x", "y', value='z", DefaultType)
  {
  }
}
