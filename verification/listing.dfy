/** The `data_services` property: the catalog rendered as four lines per variable, in
    catalog order, plus a reader for such a listing that recovers the table from it. */
module Listing {
  import opened Wrappers
  import opened Strings
  import opened Catalog

  const NamePrefix: string := "Variable name: "
  const UnitsPrefix: string := "Variable units: "
  const StandardNamePrefix: string := "BMI standard name: "
  const LinkPrefix: string := "Data link: "
  /** The last line of every block carries an extra newline, so blocks print apart. */
  const BlockEnd: string := "\n"

  /** The four lines describing one variable. */
  function EntryLines(s: Service): seq<string>
  {
    [ NamePrefix + s.key,
      UnitsPrefix + s.entry.units,
      StandardNamePrefix + s.entry.name,
      LinkPrefix + s.entry.link + BlockEnd ]
  }

  /** Reference definition of a listing: the blocks of all variables, in order. */
  function ListingOf(ss: seq<Service>): seq<string>
  {
    if ss == [] then [] else EntryLines(ss[0]) + ListingOf(ss[1..])
  }

  /** Appending a variable to the table appends its block to the listing. */
  lemma {:induction false} ListingOfSnoc(ss: seq<Service>, s: Service)
    ensures ListingOf(ss + [s]) == ListingOf(ss) + EntryLines(s)
  {
    if ss == [] {
      assert ss + [s] == [s];
    } else {
      assert (ss + [s])[1..] == ss[1..] + [s];
      ListingOfSnoc(ss[1..], s);
    }
  }

  /** A listing has exactly four lines per variable, and the block at position `i` is the
      block of the `i`-th variable. */
  lemma {:induction false} ListingShape(ss: seq<Service>)
    ensures |ListingOf(ss)| == 4 * |ss|
    ensures forall i :: 0 <= i < |ss| ==> ListingOf(ss)[4 * i..4 * i + 4] == EntryLines(ss[i])
  {
    if ss != [] {
      ListingShape(ss[1..]);
      var rest := ListingOf(ss[1..]);
      assert ListingOf(ss) == EntryLines(ss[0]) + rest;
      forall i | 0 <= i < |ss|
        ensures ListingOf(ss)[4 * i..4 * i + 4] == EntryLines(ss[i])
      {
        if i > 0 {
          assert ListingOf(ss)[4 * i..4 * i + 4] == rest[4 * (i - 1)..4 * (i - 1) + 4];
        }
      }
    }
  }

  /** Builds the listing of `ss` the way `data_services` does: one pass over the table,
      extending the line list by each variable's block. */
  method Render(ss: seq<Service>) returns (lines: seq<string>)
    ensures lines == ListingOf(ss)
  {
    lines := [];
    for i := 0 to |ss|
      invariant lines == ListingOf(ss[..i])
    {
      ListingOfSnoc(ss[..i], ss[i]);
      assert ss[..i + 1] == ss[..i] + [ss[i]];
      lines := lines + EntryLines(ss[i]);
    }
    assert ss[..|ss|] == ss;
  }

  /** `DbSeabed.data_services`: the lines for the whole catalog, before they are joined
      with the platform line separator and printed. By `ListingShape` they are four lines
      per variable, in catalog order. */
  method DataServicesLines() returns (lines: seq<string>)
    ensures lines == ListingOf(Services)
    ensures ParseListing(lines) == Some(Services)
  {
    lines := Render(Services);
    ParseRoundTrip(Services);
  }

  /** Reads one block back into a variable. */
  function ParseEntry(block: seq<string>): Option<Service>
    requires |block| == 4
  {
    var key :- StripPrefix(block[0], NamePrefix);
    var units :- StripPrefix(block[1], UnitsPrefix);
    var name :- StripPrefix(block[2], StandardNamePrefix);
    var linkLine :- StripPrefix(block[3], LinkPrefix);
    var link :- StripSuffix(linkLine, BlockEnd);
    Some(Service(key, Entry(name, link, units)))
  }

  /** Reads a whole listing back into the table it lists, or None when it is not one. */
  function ParseListing(lines: seq<string>): Option<seq<Service>>
    decreases |lines|
  {
    if lines == [] then Some([])
    else if |lines| < 4 then None
    else
      var s :- ParseEntry(lines[..4]);
      var rest :- ParseListing(lines[4..]);
      Some([s] + rest)
  }

  /** Reading a block back gives the variable it was rendered from. */
  lemma ParseEntryRoundTrip(s: Service)
    ensures ParseEntry(EntryLines(s)) == Some(s)
  {
    var block := EntryLines(s);
    StripPrefixOfConcat(NamePrefix, s.key);
    StripPrefixOfConcat(UnitsPrefix, s.entry.units);
    StripPrefixOfConcat(StandardNamePrefix, s.entry.name);
    assert LinkPrefix + s.entry.link + BlockEnd == LinkPrefix + (s.entry.link + BlockEnd);
    StripPrefixOfConcat(LinkPrefix, s.entry.link + BlockEnd);
    StripSuffixOfConcat(s.entry.link, BlockEnd);
  }

  /** Reading a listing back gives the table it was rendered from: the listing loses
      nothing and keeps the catalog order. */
  lemma {:induction false} ParseRoundTrip(ss: seq<Service>)
    ensures ParseListing(ListingOf(ss)) == Some(ss)
  {
    if ss != [] {
      var lines := ListingOf(ss);
      assert lines[..4] == EntryLines(ss[0]);
      assert lines[4..] == ListingOf(ss[1..]);
      ParseEntryRoundTrip(ss[0]);
      ParseRoundTrip(ss[1..]);
      assert [ss[0]] + ss[1..] == ss;
    }
  }
}
