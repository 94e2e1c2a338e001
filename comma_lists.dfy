/**
 * The comma-list helpers at the end of grammar.js, as languages over the
 * sequence of elements a list is made of: the items the rule argument
 * matches and the `,` tokens between them.
 */
module CommaLists {

  /** One element of a comma list: a `,` token or something the rule argument matched. */
  datatype Elem<T> = Comma | Item(value: T)

  /** Any number of repetitions of a comma followed by an item. */
  predicate RepeatCommaItem<T>(xs: seq<Elem<T>>)
    decreases |xs|
  {
    xs == [] || (|xs| >= 2 && xs[0] == Comma && xs[1].Item? && RepeatCommaItem(xs[2..]))
  }

  /** `commaSep1`: an item, then any number of repetitions of a comma and an item. */
  predicate IsCommaSep1<T>(xs: seq<Elem<T>>) {
    |xs| >= 1 && xs[0].Item? && RepeatCommaItem(xs[1..])
  }

  /** `commaSep`: nothing, or a `commaSep1` list. */
  predicate IsCommaSep<T>(xs: seq<Elem<T>>) {
    xs == [] || IsCommaSep1(xs)
  }

  /** The list ends in a `,`. */
  predicate HasTrailingComma<T>(xs: seq<Elem<T>>) {
    |xs| >= 1 && xs[|xs| - 1] == Comma
  }

  /** `optionalCommaSep`: a `commaSep` list, optionally followed by one comma. */
  predicate IsOptionalCommaSep<T>(xs: seq<Elem<T>>) {
    IsCommaSep(xs) || (HasTrailingComma(xs) && IsCommaSep(xs[..|xs| - 1]))
  }

  /** `optionalCommaSep1`: a `commaSep1` list, optionally followed by one comma. */
  predicate IsOptionalCommaSep1<T>(xs: seq<Elem<T>>) {
    IsCommaSep1(xs) || (HasTrailingComma(xs) && IsCommaSep1(xs[..|xs| - 1]))
  }

  // ---------------------------------------------------------------------
  // Lists written out and read back
  // ---------------------------------------------------------------------

  /** The items of a list, in order, without the commas. */
  function Items<T>(xs: seq<Elem<T>>): seq<T>
    decreases |xs|
  {
    if xs == [] then []
    else (if xs[0].Item? then [xs[0].value] else []) + Items(xs[1..])
  }

  /** Each item preceded by a comma. */
  function CommaItems<T>(ys: seq<T>): seq<Elem<T>>
    decreases |ys|
  {
    if ys == [] then [] else [Comma, Item(ys[0])] + CommaItems(ys[1..])
  }

  /** The items with a comma between each two. */
  function Separated<T>(items: seq<T>): seq<Elem<T>> {
    if items == [] then [] else [Item(items[0])] + CommaItems(items[1..])
  }

  /** The items with a comma between each two, and a trailing comma when asked for. */
  function Join<T>(items: seq<T>, trailing: bool): seq<Elem<T>> {
    Separated(items) + (if trailing then [Comma] else [])
  }

  lemma {:induction false} ItemsJoin<T>(a: seq<Elem<T>>, b: seq<Elem<T>>)
    ensures Items(a + b) == Items(a) + Items(b)
    decreases |a|
  {
    if a == [] {
      assert a + b == b;
    } else {
      assert (a + b)[0] == a[0];
      assert (a + b)[1..] == a[1..] + b;
      ItemsJoin(a[1..], b);
    }
  }

  lemma {:induction false} CommaItemsRoundTrip<T>(ys: seq<T>)
    ensures RepeatCommaItem(CommaItems(ys))
    ensures Items(CommaItems(ys)) == ys
    decreases |ys|
  {
    if ys != [] {
      var xs := CommaItems(ys);
      CommaItemsRoundTrip(ys[1..]);
      assert xs[2..] == CommaItems(ys[1..]);
      assert xs[1..][1..] == xs[2..];
      assert Items(xs[1..]) == [ys[0]] + Items(xs[2..]);
      assert ys == [ys[0]] + ys[1..];
    }
  }

  lemma {:induction false} RepeatIsCommaItems<T>(xs: seq<Elem<T>>)
    requires RepeatCommaItem(xs)
    ensures xs == CommaItems(Items(xs))
    decreases |xs|
  {
    if xs != [] {
      RepeatIsCommaItems(xs[2..]);
      assert xs[1..][1..] == xs[2..];
      assert Items(xs) == [xs[1].value] + Items(xs[2..]);
      assert xs == [xs[0], xs[1]] + xs[2..];
    }
  }

  /** `commaSep` matches exactly the item sequences written with commas between the items. */
  lemma SeparatedRoundTrip<T>(items: seq<T>)
    ensures IsCommaSep(Separated(items))
    ensures Items(Separated(items)) == items
  {
    if items != [] {
      var xs := Separated(items);
      CommaItemsRoundTrip(items[1..]);
      assert xs[1..] == CommaItems(items[1..]);
      assert items == [items[0]] + items[1..];
    }
  }

  lemma CommaSepIsSeparated<T>(xs: seq<Elem<T>>)
    requires IsCommaSep(xs)
    ensures xs == Separated(Items(xs))
  {
    if xs != [] {
      RepeatIsCommaItems(xs[1..]);
      assert Items(xs) == [xs[0].value] + Items(xs[1..]);
      assert xs == [xs[0]] + xs[1..];
    }
  }

  /**
   * `optionalCommaSep` accepts every list written out by `Join`, and reading
   * its items back gives the items it was written from.
   */
  lemma JoinRoundTrip<T>(items: seq<T>, trailing: bool)
    ensures IsOptionalCommaSep(Join(items, trailing))
    ensures Items(Join(items, trailing)) == items
    ensures HasTrailingComma(Join(items, trailing)) == trailing
  {
    var xs := Join(items, trailing);
    SeparatedRoundTrip(items);
    ItemsJoin(Separated(items), if trailing then [Comma] else []);
    if trailing {
      assert xs[..|xs| - 1] == Separated(items);
    } else {
      assert xs == Separated(items);
      if items != [] {
        assert xs[|xs| - 1].Item? by {
          var ys := items[1..];
          if ys != [] {
            CommaItemsLast(ys);
          }
        }
      }
    }
  }

  lemma {:induction false} CommaItemsLast<T>(ys: seq<T>)
    requires ys != []
    ensures CommaItems(ys)[|CommaItems(ys)| - 1] == Item(ys[|ys| - 1])
    decreases |ys|
  {
    if |ys| > 1 {
      CommaItemsLast(ys[1..]);
    }
  }

  /** Every list `optionalCommaSep` accepts is the items it holds, written out by `Join`. */
  lemma OptionalCommaSepIsJoin<T>(xs: seq<Elem<T>>)
    requires IsOptionalCommaSep(xs)
    ensures xs == Join(Items(xs), HasTrailingComma(xs))
  {
    if IsCommaSep(xs) {
      CommaSepIsSeparated(xs);
      if xs != [] {
        CommaSep1EndsInItem(xs);
      }
    } else {
      var ys := xs[..|xs| - 1];
      CommaSepIsSeparated(ys);
      var c: seq<Elem<T>> := [Comma];
      assert xs == ys + c;
      ItemsJoin(ys, c);
      assert Items(c) == [] by {
        assert c[1..] == [];
      }
      assert Items(xs) == Items(ys);
    }
  }

  /** A list `commaSep1` accepts ends in an item. */
  lemma CommaSep1EndsInItem<T>(xs: seq<Elem<T>>)
    requires IsCommaSep1(xs)
    ensures xs[|xs| - 1].Item?
  {
    CommaSepIsSeparated(xs);
    var items := Items(xs);
    if |items| > 1 {
      CommaItemsLast(items[1..]);
    }
  }

  /** `optionalCommaSep` accepts a list exactly when it is some items written out by `Join`. */
  lemma OptionalCommaSepIffJoin<T>(xs: seq<Elem<T>>)
    ensures IsOptionalCommaSep(xs) <==> exists items, trailing :: xs == Join(items, trailing)
  {
    if IsOptionalCommaSep(xs) {
      OptionalCommaSepIsJoin(xs);
    }
    if exists items, trailing :: xs == Join(items, trailing) {
      var items, trailing :| xs == Join(items, trailing);
      JoinRoundTrip(items, trailing);
    }
  }

  /** The only list `optionalCommaSep` accepts without any item, besides the empty one, is a lone comma. */
  lemma OptionalCommaSepWithoutItems<T>(xs: seq<Elem<T>>)
    requires IsOptionalCommaSep(xs) && Items(xs) == []
    ensures xs == [] || xs == [Comma]
  {
    OptionalCommaSepIsJoin(xs);
  }

  lemma LoneComma()
    ensures IsOptionalCommaSep<int>([Comma]) && !IsOptionalCommaSep1<int>([Comma])
  {
    var xs: seq<Elem<int>> := [Comma];
    assert xs[..0] == [];
  }

  /** The `1` variants are the plain ones restricted to lists with at least one item. */
  lemma OptionalCommaSep1NeedsItem<T>(xs: seq<Elem<T>>)
    ensures IsOptionalCommaSep1(xs) <==> IsOptionalCommaSep(xs) && |Items(xs)| >= 1
  {
    if IsOptionalCommaSep(xs) {
      OptionalCommaSepIsJoin(xs);
      var items := Items(xs);
      JoinRoundTrip(items, HasTrailingComma(xs));
      if items == [] {
        assert xs == [] || xs == [Comma];
      } else {
        assert Separated(items)[0] == Item(items[0]);
        if HasTrailingComma(xs) {
          assert xs[..|xs| - 1] == Separated(items);
        }
      }
    }
  }

  lemma CommaSep1NeedsItem<T>(xs: seq<Elem<T>>)
    ensures IsCommaSep1(xs) <==> IsCommaSep(xs) && |Items(xs)| >= 1
  {
    if IsCommaSep1(xs) {
      assert Items(xs) == [xs[0].value] + Items(xs[1..]);
    }
  }
}
