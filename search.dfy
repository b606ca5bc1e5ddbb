/**
 * The global search box: a fixed corpus of four records, a case-insensitive
 * substring filter over each record's title and identifier, and the results
 * panel the input and click handlers update.
 */
module Search {
  import opened Strings

  /** One entry of the corpus; `kind` is the module a result would open. */
  datatype Record = Record(id: string, title: string, subtitle: string, kind: string)

  /** The static corpus, in its declared order. */
  const SearchData: seq<Record> := [
    Record("EMP-2847", "Sarah Anderson", "Engineering \U{2022} Active", "hr"),
    Record("EMP-2891", "Marcus Chen", "Product \U{2022} Active", "hr"),
    Record("INV-2024", "Invoice #2024", "Acme Corp \U{2022} $12,450", "finance"),
    Record("LEAD-001", "Jennifer Martinez", "TechCorp \U{2022} Hot Lead", "crm")
  ]

  /** The shortest query that opens the panel. */
  const MinQueryLength := 2

  /** The filter's test: the lowered title or the lowered id contains `q`. */
  predicate Matches(r: Record, q: string)
  {
    Contains(Lower(r.title), q) || Contains(Lower(r.id), q)
  }

  /** `data.filter(item => Matches(item, q))`. */
  function Filter(data: seq<Record>, q: string): (r: seq<Record>)
    ensures |r| <= |data|
  {
    if data == [] then []
    else if Matches(data[0], q) then [data[0]] + Filter(data[1..], q)
    else Filter(data[1..], q)
  }

  /** `r` is `s` with some elements dropped and the rest kept in order. */
  predicate IsSubsequence(r: seq<Record>, s: seq<Record>)
    decreases |s|
  {
    if r == [] then true
    else if s == [] then false
    else if r[0] == s[0] then IsSubsequence(r[1..], s[1..])
    else IsSubsequence(r, s[1..])
  }

  predicate NoDuplicates(s: seq<Record>)
  {
    forall i, j :: 0 <= i < j < |s| ==> s[i] != s[j]
  }

  /** Every result matches the query. */
  lemma {:induction false} FilterSound(data: seq<Record>, q: string)
    ensures forall r :: r in Filter(data, q) ==> r in data && Matches(r, q)
  {
    if data != [] {
      FilterSound(data[1..], q);
    }
  }

  /** Every matching record is a result. */
  lemma {:induction false} FilterComplete(data: seq<Record>, q: string)
    ensures forall r :: r in data && Matches(r, q) ==> r in Filter(data, q)
  {
    if data != [] {
      FilterComplete(data[1..], q);
    }
  }

  /** The results keep the corpus order. */
  lemma {:induction false} FilterIsSubsequence(data: seq<Record>, q: string)
    ensures IsSubsequence(Filter(data, q), data)
  {
    if data != [] {
      FilterIsSubsequence(data[1..], q);
      if !Matches(data[0], q) {
        SubsequenceOfTail(Filter(data[1..], q), data);
      }
    }
  }

  /** A subsequence of the tail is a subsequence of the whole. */
  lemma {:induction false} SubsequenceOfTail(r: seq<Record>, s: seq<Record>)
    requires s != [] && IsSubsequence(r, s[1..])
    ensures IsSubsequence(r, s)
    decreases |s|, 0
  {
    if r != [] && r[0] == s[0] {
      DropHead(r, s[1..]);
    }
  }

  /** Dropping the first element of a subsequence keeps it a subsequence. */
  lemma {:induction false} DropHead(r: seq<Record>, s: seq<Record>)
    requires r != [] && IsSubsequence(r, s)
    ensures IsSubsequence(r[1..], s)
    decreases |s|, 1
  {
    if r[0] == s[0] {
      SubsequenceOfTail(r[1..], s);
    } else {
      DropHead(r, s[1..]);
      SubsequenceOfTail(r[1..], s);
    }
  }

  /** A corpus without duplicates gives results without duplicates. */
  lemma {:induction false} FilterNoDuplicates(data: seq<Record>, q: string)
    requires NoDuplicates(data)
    ensures NoDuplicates(Filter(data, q))
  {
    if data != [] {
      assert NoDuplicates(data[1..]) by {
        forall i, j | 0 <= i < j < |data[1..]| ensures data[1..][i] != data[1..][j] {
          assert data[1..][i] == data[i + 1] && data[1..][j] == data[j + 1];
        }
      }
      FilterNoDuplicates(data[1..], q);
      FilterSound(data[1..], q);
      if Matches(data[0], q) {
        assert data[0] !in data[1..] by {
          forall k | 0 <= k < |data[1..]| ensures data[1..][k] != data[0] {
            assert data[1..][k] == data[k + 1];
          }
        }
      }
    }
  }

  lemma SearchDataHasNoDuplicates()
    ensures NoDuplicates(SearchData)
  {
  }

  /** The query the input handler tests: the lowered input value. */
  function Query(value: string): (q: string)
    ensures |q| == |value|
    ensures forall i :: 0 <= i < |q| ==> !IsUpper(q[i])
  {
    Lower(value)
  }

  /** The records the input handler shows for a query. */
  function Results(q: string): (r: seq<Record>)
    ensures |r| <= |SearchData|
  {
    Filter(SearchData, q)
  }

  /** Results in one statement: exactly the matching records, in corpus order, once each. */
  lemma ResultsCharacterised(q: string)
    ensures forall r :: r in Results(q) <==> r in SearchData && Matches(r, q)
    ensures IsSubsequence(Results(q), SearchData)
    ensures NoDuplicates(Results(q))
    ensures |Results(q)| <= 4
  {
    FilterSound(SearchData, q);
    FilterComplete(SearchData, q);
    FilterIsSubsequence(SearchData, q);
    SearchDataHasNoDuplicates();
    FilterNoDuplicates(SearchData, q);
  }

  /** Inputs that differ only in letter case give the same results. */
  lemma CaseInsensitive(a: string, b: string)
    requires SameIgnoringCase(a, b)
    ensures Results(Query(a)) == Results(Query(b))
  {
    LowerOfSameIgnoringCase(a, b);
  }

  /** A record neither of whose searched fields holds `q[k]`, in either case, does not match `q`. */
  lemma ExcludedByMissingChar(r: Record, q: string, k: int)
    requires 0 <= k < |q| && IsLower(q[k])
    requires q[k] !in r.title && UpperChar(q[k]) !in r.title
    requires q[k] !in r.id && UpperChar(q[k]) !in r.id
    ensures !Matches(r, q)
  {
  }

  /** The filter keeps nothing when nothing matches. */
  lemma {:induction false} FilterOfNoMatches(data: seq<Record>, q: string)
    requires forall r :: r in data ==> !Matches(r, q)
    ensures Filter(data, q) == []
  {
    if data != [] {
      FilterOfNoMatches(data[1..], q);
    }
  }

  // The two example queries, decided record by record.

  lemma AndersonRecord()
    ensures !Matches(SearchData[0], "engineering") && Matches(SearchData[0], "emp")
  {
    ExcludedByMissingChar(SearchData[0], "engineering", 2);
    PrefixIsContained("emp", Lower(SearchData[0].id));
  }

  lemma ChenRecord()
    ensures !Matches(SearchData[1], "engineering") && Matches(SearchData[1], "emp")
  {
    ExcludedByMissingChar(SearchData[1], "engineering", 2);
    PrefixIsContained("emp", Lower(SearchData[1].id));
  }

  lemma InvoiceRecordEngineering()
    ensures !Matches(SearchData[2], "engineering")
  {
    ExcludedByMissingChar(SearchData[2], "engineering", 2);
  }

  lemma InvoiceRecordEmp()
    ensures !Matches(SearchData[2], "emp")
  {
    ExcludedByMissingChar(SearchData[2], "emp", 2);
  }

  lemma MartinezRecordEngineering()
    ensures !Matches(SearchData[3], "engineering")
  {
    ExcludedByMissingChar(SearchData[3], "engineering", 2);
  }

  lemma MartinezRecordEmp()
    ensures !Matches(SearchData[3], "emp")
  {
    ExcludedByMissingChar(SearchData[3], "emp", 2);
  }

  /** The subtitle is never searched: "engineering" finds nothing, though it is in the first record's subtitle. */
  lemma SubtitleNotSearched()
    ensures Contains(Lower(SearchData[0].subtitle), "engineering")
    ensures Results(Query("engineering")) == []
  {
    AndersonRecord();
    ChenRecord();
    InvoiceRecordEngineering();
    MartinezRecordEngineering();
    assert Query("engineering") == "engineering";
    FilterOfNoMatches(SearchData, "engineering");
    PrefixIsContained("engineering", Lower(SearchData[0].subtitle));
  }

  /** "EMP" and "emp" both find the two employee records, in corpus order. */
  lemma EmployeePrefixQuery()
    ensures Results(Query("EMP")) == Results(Query("emp")) == [SearchData[0], SearchData[1]]
  {
    AndersonRecord();
    ChenRecord();
    InvoiceRecordEmp();
    MartinezRecordEmp();
    assert Query("EMP") == "emp" && Query("emp") == "emp";
    var q := "emp";
    FilterOfNoMatches(SearchData[2..], q);
    assert SearchData[1..][1..] == SearchData[2..];
    assert Filter(SearchData[1..], q) == [SearchData[1]];
  }

  /** What the results container holds: the shell's own markup, nothing, one row per result, or the empty-result row. */
  datatype Panel = Markup | Cleared | Rows(results: seq<Record>) | NoResults

  /** The results container: whether it carries the `hidden` class, and its contents. */
  class ResultsPanel {
    var hidden: bool
    var contents: Panel

    constructor (hidden: bool)
      ensures this.hidden == hidden && contents == Markup
    {
      this.hidden := hidden;
      contents := Markup;
    }

    /** The `input` handler, given the field's new value. */
    method OnInput(value: string)
      modifies this
      ensures |Query(value)| < MinQueryLength ==> hidden && contents == Cleared
      ensures |Query(value)| >= MinQueryLength ==> !hidden
      ensures |Query(value)| >= MinQueryLength && Results(Query(value)) != [] ==>
        contents == Rows(Results(Query(value)))
      ensures |Query(value)| >= MinQueryLength && Results(Query(value)) == [] ==>
        contents == NoResults
    {
      var query := Query(value);
      if |query| < MinQueryLength {
        hidden := true;
        contents := Cleared;
        return;
      }
      var results := Filter(SearchData, query);
      if |results| > 0 {
        hidden := false;
        contents := Rows(results);
      } else {
        hidden := false;
        contents := NoResults;
      }
    }

    /** The document `click` handler; `insideSearch` says whether the target lies inside the search box. */
    method OnDocumentClick(insideSearch: bool)
      modifies this`hidden
      ensures hidden == (old(hidden) || !insideSearch)
      ensures contents == old(contents)
    {
      if !insideSearch {
        hidden := true;
      }
    }
  }
}
