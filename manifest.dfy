/** The load-order manifest `modules.txt`: the launcher descriptor, the bootstrap archive's name,
    then the name of every entry directly inside each module path, module path by module path. */
module Manifest {
  import opened Results
  import opened Paths

  /** The manifest's first line, written as a fixed string. */
  const Descriptor := "com.github.forax.pro.main/com.github.forax.pro.main.Main"

  /** The manifest's file name inside the staging directory. */
  const FileName := "modules.txt"

  /** The result of listing module paths one after the other: the bare names of their entries
      in order, and the first module path that could not be listed, where listing stopped. */
  datatype Listing = Listing(names: seq<string>, unlisted: Option<Path>)

  /** Files.list on each of `dirs` in order; `listings` gives each listable directory's entry
      names in the order the file system enumerates them. */
  function ListAll(dirs: seq<Path>, listings: map<Path, seq<string>>): (r: Listing)
    ensures r.unlisted.None? <==> forall i :: 0 <= i < |dirs| ==> dirs[i] in listings
    ensures r.unlisted.Some? ==> r.unlisted.value in dirs && r.unlisted.value !in listings
    decreases |dirs|
  {
    if dirs == [] then Listing([], None)
    else if dirs[0] !in listings then Listing([], Some(dirs[0]))
    else
      var rest := ListAll(dirs[1..], listings);
      assert forall i :: 1 <= i < |dirs| ==> dirs[i] == dirs[1..][i - 1];
      Listing(listings[dirs[0]] + rest.names, rest.unlisted)
  }

  /** The manifest: descriptor, bootstrap archive name, then the entries. */
  function Lines(jarName: string, entries: seq<string>): seq<string> {
    [Descriptor, jarName] + entries
  }

  /** How many entries the listable ones of `dirs` hold, counted from the last path back. */
  function EntryCount(dirs: seq<Path>, listings: map<Path, seq<string>>): nat
    decreases |dirs|
  {
    if dirs == [] then 0
    else
      var last := dirs[|dirs| - 1];
      EntryCount(dirs[..|dirs| - 1], listings) + (if last in listings then |listings[last]| else 0)
  }

  /** Listing two runs of module paths one after the other: when the first run is fully
      listable, its names come first and the second run decides where listing stops. */
  lemma {:induction false} ListAllAppend(a: seq<Path>, b: seq<Path>, listings: map<Path, seq<string>>)
    requires forall i :: 0 <= i < |a| ==> a[i] in listings
    ensures ListAll(a + b, listings)
         == Listing(ListAll(a, listings).names + ListAll(b, listings).names, ListAll(b, listings).unlisted)
    decreases |a|
  {
    if a == [] {
      assert a + b == b;
    } else {
      assert (a + b)[0] == a[0];
      assert (a + b)[1..] == a[1..] + b;
      ListAllAppend(a[1..], b, listings);
      var na := ListAll(a[1..], listings).names;
      var nb := ListAll(b, listings).names;
      assert listings[a[0]] + (na + nb) == (listings[a[0]] + na) + nb;
    }
  }

  /** One line per entry: the listing of fully listable module paths has as many names as
      their listings hold together. */
  lemma {:induction false} ListAllCount(dirs: seq<Path>, listings: map<Path, seq<string>>)
    requires forall i :: 0 <= i < |dirs| ==> dirs[i] in listings
    ensures ListAll(dirs, listings).unlisted.None?
    ensures |ListAll(dirs, listings).names| == EntryCount(dirs, listings)
    decreases |dirs|
  {
    if dirs != [] {
      var init := dirs[..|dirs| - 1];
      var last := dirs[|dirs| - 1];
      assert dirs == init + [last];
      ListAllCount(init, listings);
      ListAllAppend(init, [last], listings);
      assert ListAll([last], listings).names == listings[last] + ListAll([], listings).names;
    }
  }

  /** Module path j contributes its listing, in listing order, right after the entries of the
      module paths before it (which number `EntryCount` of them) and before those after it. */
  lemma ListAllBlock(dirs: seq<Path>, listings: map<Path, seq<string>>, j: nat)
    requires forall i :: 0 <= i < |dirs| ==> dirs[i] in listings
    requires j < |dirs|
    ensures ListAll(dirs, listings).names
         == ListAll(dirs[..j], listings).names + listings[dirs[j]] + ListAll(dirs[j + 1..], listings).names
    ensures |ListAll(dirs[..j], listings).names| == EntryCount(dirs[..j], listings)
  {
    var before, here, after := dirs[..j], [dirs[j]], dirs[j + 1..];
    assert dirs == before + (here + after);
    assert forall i :: 0 <= i < |before| ==> before[i] == dirs[i];
    ListAllAppend(before, here + after, listings);
    ListAllAppend(here, after, listings);
    ListAllCount(before, listings);
    assert ListAll(here, listings).names == listings[dirs[j]] + ListAll([], listings).names;
    var nb, na := ListAll(before, listings).names, ListAll(after, listings).names;
    assert nb + (listings[dirs[j]] + na) == nb + listings[dirs[j]] + na;
  }

  /** The manifest of fully listable module paths: the descriptor, the archive name, then each
      module path's listing as one block after the blocks before it. */
  lemma LinesLayout(jarName: string, dirs: seq<Path>, listings: map<Path, seq<string>>)
    requires forall i :: 0 <= i < |dirs| ==> dirs[i] in listings
    ensures var lines := Lines(jarName, ListAll(dirs, listings).names);
            |lines| == 2 + EntryCount(dirs, listings)
            && lines[0] == Descriptor && lines[1] == jarName
            && forall j :: 0 <= j < |dirs| ==>
                 lines == Lines(jarName, ListAll(dirs[..j], listings).names)
                          + listings[dirs[j]] + ListAll(dirs[j + 1..], listings).names
                 && |ListAll(dirs[..j], listings).names| == EntryCount(dirs[..j], listings)
  {
    ListAllCount(dirs, listings);
    forall j | 0 <= j < |dirs|
      ensures Lines(jarName, ListAll(dirs, listings).names)
              == Lines(jarName, ListAll(dirs[..j], listings).names)
                 + listings[dirs[j]] + ListAll(dirs[j + 1..], listings).names
      ensures |ListAll(dirs[..j], listings).names| == EntryCount(dirs[..j], listings)
    {
      ListAllBlock(dirs, listings, j);
      var nb, na := ListAll(dirs[..j], listings).names, ListAll(dirs[j + 1..], listings).names;
      assert [Descriptor, jarName] + (nb + listings[dirs[j]] + na)
          == [Descriptor, jarName] + nb + listings[dirs[j]] + na;
    }
  }
}
