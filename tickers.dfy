/** `load_tickers_from_lists`: the named ticker lists (one text file per list, one ticker
    per line) and the set of every ticker to fetch. Directory listing and file reading
    are inputs: each list file is given by its base name and its lines. */
module TickerLists {
  import opened Optional
  import opened Text

  /** A ticker as the loader stores it: non-empty, no whitespace at either end, no
      lower-case letter. */
  predicate IsTicker(t: string)
  {
    && t != []
    && IsStripped(t)
    && forall i :: 0 <= i < |t| ==> !IsLower(t[i])
  }

  /** Every element is a ticker. */
  predicate AllTickers(ts: seq<string>)
  {
    forall t :: t in ts ==> IsTicker(t)
  }

  /** One line of a list file: `line.strip().upper()` when `line.strip()` is non-empty,
      nothing for a blank line. */
  function ParseLine(line: string): (r: Option<string>)
    ensures r.Some? ==> 0 < |r.value| <= |line|
  {
    var s := Strip(line);
    if s == [] then None else Some(Upper(s))
  }

  /** A line gives nothing exactly when it is blank; otherwise it gives a well-formed
      ticker, the stripped line with each letter upper-cased. */
  lemma ParseLineSpec(line: string)
    ensures ParseLine(line).None? <==> AllSpace(line)
    ensures ParseLine(line).Some? ==>
              var t := ParseLine(line).value;
              && IsTicker(t)
              && |t| == |Strip(line)|
              && forall i :: 0 <= i < |t| ==> t[i] == ToUpper(Strip(line)[i])
  {
    var s := Strip(line);
    StripSpec(line);
    if s != [] {
      var u := Upper(s);
      assert u[0] == ToUpper(s[0]) && u[|u| - 1] == ToUpper(s[|s| - 1]);
    }
  }

  /** The list comprehension `[line.strip().upper() for line in f if line.strip()]`
      over the lines of one file, in line order. */
  function ParseTickers(lines: seq<string>): (ts: seq<string>)
    ensures |ts| <= |lines|
  {
    if lines == [] then []
    else
      var rest := ParseTickers(lines[1..]);
      match ParseLine(lines[0])
      case None => rest
      case Some(t) => [t] + rest
  }

  /** Every parsed ticker is well formed, and there is at most one per line. */
  lemma {:induction false} ParseTickersWellFormed(lines: seq<string>)
    ensures |ParseTickers(lines)| <= |lines|
    ensures AllTickers(ParseTickers(lines))
  {
    if lines != [] {
      ParseTickersWellFormed(lines[1..]);
      ParseLineSpec(lines[0]);
    }
  }

  /** The parsed tickers are exactly what the non-blank lines give. */
  lemma {:induction false} ParseTickersMembers(lines: seq<string>, t: string)
    ensures t in ParseTickers(lines) <==> exists i :: 0 <= i < |lines| && ParseLine(lines[i]) == Some(t)
  {
    if lines != [] {
      ParseTickersMembers(lines[1..], t);
      if exists i :: 0 <= i < |lines| && ParseLine(lines[i]) == Some(t) {
        var i :| 0 <= i < |lines| && ParseLine(lines[i]) == Some(t);
        if i > 0 { assert lines[1..][i - 1] == lines[i]; }
      }
      if exists i :: 0 <= i < |lines[1..]| && ParseLine(lines[1..][i]) == Some(t) {
        var i :| 0 <= i < |lines[1..]| && ParseLine(lines[1..][i]) == Some(t);
        assert lines[i + 1] == lines[1..][i];
      }
    }
  }

  /** Line order is kept: the tickers of the earlier lines come first, then those of
      the later lines. */
  lemma {:induction false} ParseTickersAppend(a: seq<string>, b: seq<string>)
    ensures ParseTickers(a + b) == ParseTickers(a) + ParseTickers(b)
  {
    if a == [] {
      assert a + b == b;
    } else {
      assert (a + b)[0] == a[0];
      assert (a + b)[1..] == a[1..] + b;
      ParseTickersAppend(a[1..], b);
    }
  }

  /** A blank line between two parts of a file adds nothing. */
  lemma ParseTickersBlankLine(a: seq<string>, blank: string, b: seq<string>)
    requires AllSpace(blank)
    ensures ParseTickers(a + [blank] + b) == ParseTickers(a) + ParseTickers(b)
  {
    assert ParseTickers([blank]) == [] by {
      ParseLineSpec(blank);
      assert [blank][1..] == [];
    }
    ParseTickersAppend(a, [blank]);
    ParseTickersAppend(a + [blank], b);
  }

  /** `basename.replace(".txt", "")`: every ".txt" is removed, not only the extension.
      The name is never longer than the base name, and a base name without ".txt" is
      the list name itself. */
  function ListName(baseName: string): (name: string)
    ensures |name| <= |baseName|
    ensures !Occurs(baseName, ".txt") ==> name == baseName
  {
    var name := RemoveAll(baseName, ".txt");
    if Contains(baseName, ".txt") then name
    else RemoveAllAbsent(baseName, ".txt"); name
  }

  /** A base name whose stem does not contain ".txt" (dots are allowed) names the list
      after that stem, and so does that stem with ".txt" written twice. */
  lemma ListNameOfStem(stem: string)
    requires !Occurs(stem, ".txt")
    ensures ListName(stem + ".txt") == stem
    ensures ListName(stem + ".txt.txt") == stem
  {
    RemoveAllKeepsPrefix(stem, ".txt", ".txt");
    RemoveAllLeading(".txt", "");
    assert ".txt" + "" == ".txt" && RemoveAll("", ".txt") == "";
    assert ".txt.txt" == ".txt" + ".txt";
    RemoveAllKeepsPrefix(stem, ".txt.txt", ".txt");
    RemoveAllLeading(".txt", ".txt");
  }

  /** A ticker with a dot in it keeps the dot in its list name: "brk.b.txt" is the list
      "brk.b". */
  lemma ListNameDotted()
    ensures ListName("brk.b.txt") == "brk.b"
  {
    MissingCharNotOccurs("brk.b", ".txt", 2);
    ListNameOfStem("brk.b");
    assert "brk.b" + ".txt" == "brk.b.txt";
  }

  /** A `*.txt` file of the lists directory: its base name and the lines that
      iterating over it yields, each with its line terminator. */
  datatype ListFile = ListFile(baseName: string, lines: seq<string>)

  /** One list as the loader stores it: the name it goes under and its tickers. */
  datatype TickerList = TickerList(name: string, tickers: seq<string>)

  /** Reading one file: its list name and the tickers of its lines. */
  function ReadList(f: ListFile): TickerList
  {
    TickerList(ListName(f.baseName), ParseTickers(f.lines))
  }

  /** The lists of the files, in listing order. */
  function ReadLists(files: seq<ListFile>): (lists: seq<TickerList>)
    ensures |lists| == |files|
  {
    seq(|files|, i requires 0 <= i < |files| => ReadList(files[i]))
  }

  /** `set(tickers)`: the elements of a sequence. */
  function Elems(s: seq<string>): (e: set<string>)
    ensures forall x :: x in e <==> x in s
  {
    set x | x in s
  }

  /** `list_map` after these lists have been stored in this order: each list's tickers
      under its name, a later list replacing an earlier one of the same name. */
  function ListMapOf(lists: seq<TickerList>): (m: map<string, seq<string>>)
    ensures |m| <= |lists|
  {
    if lists == [] then map[]
    else
      var last := lists[|lists| - 1];
      ListMapOf(lists[..|lists| - 1])[last.name := last.tickers]
  }

  /** `unique_tickers` after these lists have been added to it. */
  function TickerUnion(lists: seq<TickerList>): (u: set<string>)
    ensures forall i, t :: 0 <= i < |lists| && t in lists[i].tickers ==> t in u
  {
    if lists == [] then {}
    else TickerUnion(lists[..|lists| - 1]) + Elems(lists[|lists| - 1].tickers)
  }

  /** Storing one more list updates the map under its name and adds its tickers to the
      unique set; nothing else changes. */
  lemma StoreOneMore(lists: seq<TickerList>, l: TickerList)
    ensures ListMapOf(lists + [l]) == ListMapOf(lists)[l.name := l.tickers]
    ensures TickerUnion(lists + [l]) == TickerUnion(lists) + Elems(l.tickers)
  {
    assert (lists + [l])[..|lists|] == lists;
  }

  /** Reading the file at index `i` stores its parsed list under its list name. */
  lemma ReadOneMore(files: seq<ListFile>, i: nat)
    requires i < |files|
    ensures ListMapOf(ReadLists(files)[..i + 1])
            == ListMapOf(ReadLists(files)[..i])[ListName(files[i].baseName) := ParseTickers(files[i].lines)]
    ensures TickerUnion(ReadLists(files)[..i + 1])
            == TickerUnion(ReadLists(files)[..i]) + Elems(ParseTickers(files[i].lines))
  {
    var lists := ReadLists(files);
    assert lists[..i + 1] == lists[..i] + [lists[i]];
    StoreOneMore(lists[..i], lists[i]);
  }

  /** Some list has `t` among its tickers. */
  ghost predicate ListedIn(lists: seq<TickerList>, t: string)
  {
    exists i :: 0 <= i < |lists| && t in lists[i].tickers
  }

  /** The unique set holds exactly the tickers listed in some list. */
  lemma {:induction false} TickerUnionMembers(lists: seq<TickerList>, t: string)
    ensures t in TickerUnion(lists) <==> ListedIn(lists, t)
    decreases |lists|
  {
    if lists != [] {
      var init := lists[..|lists| - 1];
      TickerUnionMembers(init, t);
      if ListedIn(init, t) {
        var i :| 0 <= i < |init| && t in init[i].tickers;
        assert init[i] == lists[i];
      }
      if ListedIn(lists, t) && t !in lists[|lists| - 1].tickers {
        var i :| 0 <= i < |lists| && t in lists[i].tickers;
        assert init[i] == lists[i];
      }
    }
  }

  /** Every unique ticker of lists read from files is well formed. */
  lemma TickerUnionWellFormed(files: seq<ListFile>)
    ensures forall t :: t in TickerUnion(ReadLists(files)) ==> IsTicker(t)
  {
    var lists := ReadLists(files);
    forall t | t in TickerUnion(lists) ensures IsTicker(t) {
      TickerUnionMembers(lists, t);
      var i :| 0 <= i < |lists| && t in lists[i].tickers;
      assert lists[i] == ReadList(files[i]);
      ParseTickersWellFormed(files[i].lines);
    }
  }

  /** The list names stored are exactly those of the lists read. */
  lemma {:induction false} ListMapKeys(lists: seq<TickerList>, k: string)
    ensures k in ListMapOf(lists) <==> exists i :: 0 <= i < |lists| && lists[i].name == k
    decreases |lists|
  {
    if lists != [] {
      var init := lists[..|lists| - 1];
      ListMapKeys(init, k);
      if exists i :: 0 <= i < |init| && init[i].name == k {
        var i :| 0 <= i < |init| && init[i].name == k;
        assert init[i] == lists[i];
      }
      if exists i :: 0 <= i < |lists| && lists[i].name == k {
        var i :| 0 <= i < |lists| && lists[i].name == k;
        if i < |init| { assert init[i] == lists[i]; }
      }
    }
  }

  /** Every ticker stored under some list name. */
  function MapUnion(m: map<string, seq<string>>): set<string>
  {
    set k, t | k in m && t in m[k] :: t
  }

  /** The list stored last under a name decides what that name maps to. */
  lemma {:induction false} ListMapLastWins(lists: seq<TickerList>, i: nat)
    requires i < |lists|
    requires forall j :: i < j < |lists| ==> lists[j].name != lists[i].name
    ensures lists[i].name in ListMapOf(lists)
    ensures ListMapOf(lists)[lists[i].name] == lists[i].tickers
    decreases |lists|
  {
    var init := lists[..|lists| - 1];
    if i < |lists| - 1 {
      assert forall j :: i < j < |init| ==> init[j] == lists[j];
      ListMapLastWins(init, i);
    }
  }

  /** Whatever the names, every stored ticker is among the unique tickers. */
  lemma {:induction false} MapUnionWithinTickerUnion(lists: seq<TickerList>)
    ensures MapUnion(ListMapOf(lists)) <= TickerUnion(lists)
    decreases |lists|
  {
    if lists != [] {
      var init := lists[..|lists| - 1];
      MapUnionWithinTickerUnion(init);
      var last := lists[|lists| - 1];
      var m := ListMapOf(lists);
      forall t | t in MapUnion(m) ensures t in TickerUnion(lists) {
        var k :| k in m && t in m[k];
        if k != last.name {
          assert t in MapUnion(ListMapOf(init));
        }
      }
    }
  }

  /** No two lists share a name. */
  predicate DistinctNames(lists: seq<TickerList>)
  {
    forall i, j :: 0 <= i < j < |lists| ==> lists[i].name != lists[j].name
  }

  /** With distinct list names, the unique tickers are exactly the union of the lists
      stored in the map. */
  lemma TickerUnionIsMapUnion(lists: seq<TickerList>)
    requires DistinctNames(lists)
    ensures TickerUnion(lists) == MapUnion(ListMapOf(lists))
  {
    MapUnionWithinTickerUnion(lists);
    var m := ListMapOf(lists);
    forall t | t in TickerUnion(lists) ensures t in MapUnion(m) {
      TickerUnionMembers(lists, t);
      var i :| 0 <= i < |lists| && t in lists[i].tickers;
      ListMapLastWins(lists, i);
      assert t in m[lists[i].name];
    }
  }

  /** Two lists stored under one name: the map keeps only the second, the unique set
      keeps both, and a ticker only the first lists belongs to no stored list. */
  lemma SameNameLists(name: string, first: seq<string>, second: seq<string>, t: string)
    ensures var lists := [TickerList(name, first), TickerList(name, second)];
      && ListMapOf(lists) == map[name := second]
      && TickerUnion(lists) == Elems(first) + Elems(second)
      && (t in first && t !in second ==> t in TickerUnion(lists) && t !in MapUnion(ListMapOf(lists)))
  {
    var one, two := TickerList(name, first), TickerList(name, second);
    var lists := [one, two];
    assert lists[..1] == [one] && [one][..0] == [];
    assert ListMapOf([one]) == map[name := first];
    assert ListMapOf(lists) == map[name := first][name := second];
    assert TickerUnion([one]) == {} + Elems(first);
  }

  /** Two files whose names differ only by a repeated ".txt" ("a.txt" and "a.txt.txt")
      are both read as one list name ("a"); by SameNameLists, the later one then
      replaces the earlier one in the map. */
  lemma ListNameCollision(stem: string, first: seq<string>, second: seq<string>)
    requires !Occurs(stem, ".txt")
    ensures ReadLists([ListFile(stem + ".txt", first), ListFile(stem + ".txt.txt", second)])
            == [TickerList(stem, ParseTickers(first)), TickerList(stem, ParseTickers(second))]
  {
    var files := [ListFile(stem + ".txt", first), ListFile(stem + ".txt.txt", second)];
    var lists := ReadLists(files);
    ListNameOfStem(stem);
    assert lists[0] == TickerList(stem, ParseTickers(first));
    assert lists[1] == TickerList(stem, ParseTickers(second));
  }

  /** `load_tickers_from_lists`. `listsDir` is `None` when the lists directory does not
      exist and otherwise holds the `*.txt` files found in it, in listing order;
      `rootFile` holds the lines of the root `tickers.txt`, `None` when there is none. */
  method LoadTickersFromLists(listsDir: Option<seq<ListFile>>, rootFile: Option<seq<string>>)
    returns (unique: set<string>, listMap: map<string, seq<string>>)
    ensures listsDir.None? && rootFile.None? ==> unique == {} && listMap == map[]
    ensures listsDir.None? && rootFile.Some? ==>
              var tickers := ParseTickers(rootFile.value);
              unique == Elems(tickers) && listMap == map["all" := tickers]
    ensures listsDir.Some? ==>
              var lists := ReadLists(listsDir.value);
              unique == TickerUnion(lists) && listMap == ListMapOf(lists)
    ensures forall t :: t in unique ==> IsTicker(t)
    ensures forall k, t :: k in listMap && t in listMap[k] ==> IsTicker(t)
  {
    if listsDir.None? {
      if rootFile.Some? {
        var tickers := ParseTickers(rootFile.value);
        ParseTickersWellFormed(rootFile.value);
        return Elems(tickers), map["all" := tickers];
      }
      return {}, map[];
    }
    var files := listsDir.value;
    ghost var lists := ReadLists(files);
    unique, listMap := {}, map[];
    var i := 0;
    while i < |files|
      invariant 0 <= i <= |files|
      invariant unique == TickerUnion(lists[..i])
      invariant listMap == ListMapOf(lists[..i])
    {
      var listName := ListName(files[i].baseName);
      var tickers := ParseTickers(files[i].lines);
      ReadOneMore(files, i);
      listMap := listMap[listName := tickers];
      unique := unique + Elems(tickers);
      i := i + 1;
    }
    assert lists[..i] == lists;
    TickerUnionWellFormed(files);
    MapUnionWithinTickerUnion(lists);
    assert forall k, t :: k in listMap && t in listMap[k] ==> t in MapUnion(listMap);
  }
}
