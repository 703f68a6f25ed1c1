/** How the service reads a reflected column type, the string `str(column.type)`
    ("varchar(10)", "INTEGER", "double precision[]"), and the two rules by which it
    calls a type numeric or text. The two rules differ and are kept apart. */
module ColumnTypes {
  import opened Strings

  /** `str(column.type).partition("(")[0]`: the type without its parameter list,
      NOT case-folded. Reconciliation compares these. */
  function RawBase(declared: string): (r: string)
    ensures r <= declared && '(' !in r
  {
    Before(declared, '(')
  }

  /** The base type listed in schema mode: the raw base, case-folded. */
  function SchemaBaseType(declared: string): (r: string)
    ensures |r| <= |declared| && '(' !in r
    ensures forall i :: 0 <= i < |r| ==> !('A' <= r[i] <= 'Z')
  {
    CaseFold(RawBase(declared))
  }

  /** Schema-mode rule: a base type is numeric when it contains
      "float", "integer" or "precision". */
  predicate IsSchemaNumeric(base: string)
  {
    Contains(base, "float") || Contains(base, "integer") || Contains(base, "precision")
  }

  /** The classes of the diff-mode rule; only numeric columns are analysed. */
  datatype DiffClass = Numeric | Text | Other

  /** Diff-mode rule, applied to a same-type column's raw base after case folding:
      numeric when it contains "float" or "integer", or "double precision" without "[]";
      otherwise text when it contains "char" or "text"; otherwise neither. */
  function DiffClassOf(rawBase: string): DiffClass
  {
    var t := CaseFold(rawBase);
    if Contains(t, "float") || Contains(t, "integer") || (Contains(t, "double precision") && !Contains(t, "[]")) then
      Numeric
    else if Contains(t, "char") || Contains(t, "text") then
      Text
    else
      Other
  }

  /** The parameter list never affects the base type: every `b(...)` has raw base `b`,
      so "varchar(10)" and "varchar(50)" are both "varchar" in either mode. */
  lemma ParametersIgnored(b: string, params1: string, params2: string)
    requires '(' !in b
    ensures RawBase(b + "(" + params1) == RawBase(b + "(" + params2) == b
    ensures SchemaBaseType(b + "(" + params1) == SchemaBaseType(b + "(" + params2) == CaseFold(b)
  {
    BeforeIgnoresSuffix(b, '(', params1);
    BeforeIgnoresSuffix(b, '(', params2);
  }

  /** The schema-mode base type is the case-folded declaration cut at its first "(". */
  lemma SchemaBaseTypeIsFoldedPrefix(declared: string)
    ensures SchemaBaseType(declared) == Before(CaseFold(declared), '(')
    ensures CaseFold(SchemaBaseType(declared)) == SchemaBaseType(declared)
  {
    CaseFoldBefore(declared, '(');
    CaseFoldIdempotent(RawBase(declared));
  }

  /** Every type the diff-mode rule calls numeric is numeric under the schema-mode rule
      too: "double precision" contains "precision". */
  lemma DiffNumericIsSchemaNumeric(rawBase: string)
    requires DiffClassOf(rawBase) == Numeric
    ensures IsSchemaNumeric(CaseFold(rawBase))
  {
    var t := CaseFold(rawBase);
    if !Contains(t, "float") && !Contains(t, "integer") {
      assert OccursAt("double precision", "precision", 7);
      ContainsTransitive(t, "double precision", "precision");
    }
  }

  /** The declared type of an array of doubles. */
  const DoubleArray: string := "double precision[]"

  /** "double precision[]" is its own raw base and schema-mode base. */
  lemma DoubleArrayBase()
    ensures RawBase(DoubleArray) == DoubleArray && CaseFold(DoubleArray) == DoubleArray
  {
    var t := DoubleArray;
    assert t == "double precision[]";
    forall i | 0 <= i < |t|
      ensures !('A' <= t[i] <= 'Z') && t[i] != '('
    {
      assert 'a' <= t[i] <= 'z' || t[i] == ' ' || t[i] == '[' || t[i] == ']';
    }
    BeforeAbsent(t, '(');
    CaseFoldNoUpper(t);
  }

  /** The words the two rules look for that "double precision[]" contains. */
  lemma DoubleArrayWords()
    ensures Contains(DoubleArray, "precision") && Contains(DoubleArray, "[]")
  {
    var t := DoubleArray;
    assert OccursAt(t, "precision", 7);
    assert OccursAt(t, "[]", 16);
  }

  /** The words the two rules look for that "double precision[]" lacks. */
  lemma DoubleArrayMissingWords()
    ensures !Contains(DoubleArray, "float") && !Contains(DoubleArray, "integer")
    ensures !Contains(DoubleArray, "char") && !Contains(DoubleArray, "text")
  {
    var t := DoubleArray;
    NotContainedWithout(t, "float", 0);
    NotContainedWithout(t, "integer", 4);
    NotContainedWithout(t, "char", 1);
    NotContainedWithout(t, "text", 2);
  }

  /** The converse of DiffNumericIsSchemaNumeric fails: an array of doubles is
      numeric in schema mode but is not analysed in diff mode. */
  lemma ModesDiverge()
    ensures IsSchemaNumeric(SchemaBaseType(DoubleArray))
    ensures DiffClassOf(RawBase(DoubleArray)) == Other
  {
    DoubleArrayBase();
    DoubleArrayWords();
    DoubleArrayMissingWords();
  }
}
