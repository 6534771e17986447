/** The advanced-search panel: a filter record that the panel replaces field by
    field, a tag toggle, a reset, and a listener that receives every new
    record. */
module AdvancedSearch {

  const AnyOption: string := "any"

  datatype DateRange = DateRange(from: string, to: string)

  datatype SearchFilters = SearchFilters(
    songName: string,
    artist: string,
    key: string,
    genre: string,
    tempo: string,
    dateRange: DateRange,
    tags: seq<string>)

  /** The record the panel starts from and returns to when cleared. */
  const DefaultFilters: SearchFilters :=
    SearchFilters("", "", AnyOption, AnyOption, AnyOption, DateRange("", ""), [])

  /** The names of the record's fields (`keyof SearchFilters`). */
  datatype FilterField = SongName | Artist | Key | Genre | Tempo | Dates | Tags

  /** A field's value, whatever its type. */
  datatype FieldValue = Text(text: string) | Range(range: DateRange) | TagList(tags: seq<string>)

  /** A call `handleFilterChange(key, value)`, with the value of the type the
      field declares. */
  datatype FilterChange =
    | SetSongName(songName: string)
    | SetArtist(artist: string)
    | SetKey(key: string)
    | SetGenre(genre: string)
    | SetTempo(tempo: string)
    | SetDateRange(dateRange: DateRange)
    | SetTags(tags: seq<string>)

  function FieldOf(change: FilterChange): FilterField {
    match change
    case SetSongName(_) => SongName
    case SetArtist(_) => Artist
    case SetKey(_) => Key
    case SetGenre(_) => Genre
    case SetTempo(_) => Tempo
    case SetDateRange(_) => Dates
    case SetTags(_) => Tags
  }

  function ValueOf(change: FilterChange): FieldValue {
    match change
    case SetSongName(v) => Text(v)
    case SetArtist(v) => Text(v)
    case SetKey(v) => Text(v)
    case SetGenre(v) => Text(v)
    case SetTempo(v) => Text(v)
    case SetDateRange(r) => Range(r)
    case SetTags(t) => TagList(t)
  }

  /** Reads one field, as `filters[key]`. */
  function Get(f: SearchFilters, field: FilterField): FieldValue {
    match field
    case SongName => Text(f.songName)
    case Artist => Text(f.artist)
    case Key => Text(f.key)
    case Genre => Text(f.genre)
    case Tempo => Text(f.tempo)
    case Dates => Range(f.dateRange)
    case Tags => TagList(f.tags)
  }

  /** Two records with the same fields are the same record. */
  lemma FieldsDetermineRecord(f: SearchFilters, g: SearchFilters)
    requires forall field :: Get(f, field) == Get(g, field)
    ensures f == g
  {
    assert Get(f, SongName) == Get(g, SongName);
    assert Get(f, Artist) == Get(g, Artist);
    assert Get(f, Key) == Get(g, Key);
    assert Get(f, Genre) == Get(g, Genre);
    assert Get(f, Tempo) == Get(g, Tempo);
    assert Get(f, Dates) == Get(g, Dates);
    assert Get(f, Tags) == Get(g, Tags);
  }

  /** `{ ...filters, [key]: value }`: the named field takes the new value and
      every other field keeps its old one. */
  function Apply(f: SearchFilters, change: FilterChange): (g: SearchFilters)
    ensures Get(g, FieldOf(change)) == ValueOf(change)
    ensures forall field :: field != FieldOf(change) ==> Get(g, field) == Get(f, field)
  {
    match change
    case SetSongName(v) => f.(songName := v)
    case SetArtist(v) => f.(artist := v)
    case SetKey(v) => f.(key := v)
    case SetGenre(v) => f.(genre := v)
    case SetTempo(v) => f.(tempo := v)
    case SetDateRange(r) => f.(dateRange := r)
    case SetTags(t) => f.(tags := t)
  }

  /** The update is the only record that differs from the old one in the named
      field alone and holds the new value there. */
  lemma ApplyIsUnique(f: SearchFilters, change: FilterChange, g: SearchFilters)
    requires Get(g, FieldOf(change)) == ValueOf(change)
    requires forall field :: field != FieldOf(change) ==> Get(g, field) == Get(f, field)
    ensures g == Apply(f, change)
  {
    FieldsDetermineRecord(g, Apply(f, change));
  }

  /** `tags.filter((t) => t !== tag)`. */
  function Without(tags: seq<string>, tag: string): (r: seq<string>)
    ensures tag !in r
    ensures forall t :: t != tag ==> multiset(r)[t] == multiset(tags)[t]
    ensures forall t :: t in r <==> t in tags && t != tag
  {
    if tags == [] then []
    else
      assert tags == [tags[0]] + tags[1..];
      if tags[0] == tag then Without(tags[1..], tag)
      else [tags[0]] + Without(tags[1..], tag)
  }

  /** The filter keeps the order of what it keeps: it distributes over
      concatenation. */
  lemma {:induction false} WithoutAppend(a: seq<string>, b: seq<string>, tag: string)
    ensures Without(a + b, tag) == Without(a, tag) + Without(b, tag)
    decreases |a|
  {
    if a == [] {
      assert a + b == b;
    } else {
      assert (a + b)[0] == a[0];
      assert (a + b)[1..] == a[1..] + b;
      WithoutAppend(a[1..], b, tag);
      if a[0] != tag {
        assert Without(a + b, tag) == [a[0]] + Without(a[1..] + b, tag);
        assert Without(a, tag) == [a[0]] + Without(a[1..], tag);
      }
    }
  }

  /** Filtering out a tag that is not there changes nothing. */
  lemma {:induction false} WithoutAbsent(tags: seq<string>, tag: string)
    requires tag !in tags
    ensures Without(tags, tag) == tags
    decreases |tags|
  {
    if tags != [] {
      assert tags[0] != tag;
      assert tag !in tags[1..];
      WithoutAbsent(tags[1..], tag);
      assert tags == [tags[0]] + tags[1..];
    }
  }

  /** The new tag list of `handleTagToggle(tag)`. */
  function Toggled(tags: seq<string>, tag: string): (r: seq<string>)
    ensures forall t :: t in r <==> (t in tags && t != tag) || (t == tag && tag !in tags)
  {
    if tag in tags then Without(tags, tag) else tags + [tag]
  }

  /** An absent tag is appended after the existing tags, which keep their
      order. */
  lemma ToggleAbsentAppends(tags: seq<string>, tag: string)
    requires tag !in tags
    ensures Toggled(tags, tag) == tags + [tag]
  {
  }

  /** A present tag is removed everywhere it occurs; the other tags keep their
      order: removal from a concatenation removes from each part. */
  lemma TogglePresentRemoves(tags: seq<string>, tag: string, a: seq<string>, b: seq<string>)
    requires tag in tags && tags == a + b
    ensures Toggled(tags, tag) == Without(a, tag) + Without(b, tag)
    ensures tag !in Toggled(tags, tag)
    ensures forall t :: t != tag ==> multiset(Toggled(tags, tag))[t] == multiset(tags)[t]
  {
    WithoutAppend(a, b, tag);
  }

  /** Toggling an absent tag twice gives back the original list. */
  lemma ToggleTwiceRestores(tags: seq<string>, tag: string)
    requires tag !in tags
    ensures Toggled(Toggled(tags, tag), tag) == tags
  {
    WithoutAppend(tags, [tag], tag);
    WithoutAbsent(tags, tag);
    assert Without([tag], tag) == [];
  }

  predicate NoDuplicates(tags: seq<string>) {
    forall i, j :: 0 <= i < j < |tags| ==> tags[i] != tags[j]
  }

  lemma {:induction false} WithoutKeepsNoDuplicates(tags: seq<string>, tag: string)
    requires NoDuplicates(tags)
    ensures NoDuplicates(Without(tags, tag))
    decreases |tags|
  {
    if tags != [] {
      assert NoDuplicates(tags[1..]) by {
        forall i, j | 0 <= i < j < |tags[1..]| ensures tags[1..][i] != tags[1..][j] {
          assert tags[1..][i] == tags[i + 1] && tags[1..][j] == tags[j + 1];
        }
      }
      WithoutKeepsNoDuplicates(tags[1..], tag);
      if tags[0] != tag {
        var rest := Without(tags[1..], tag);
        assert tags[0] !in tags[1..] by {
          forall k | 0 <= k < |tags[1..]| ensures tags[1..][k] != tags[0] {
            assert tags[1..][k] == tags[k + 1];
          }
        }
        assert tags[0] !in rest by {
          assert multiset(rest)[tags[0]] == multiset(tags[1..])[tags[0]] == 0;
        }
        var r := [tags[0]] + rest;
        forall i, j | 0 <= i < j < |r| ensures r[i] != r[j] {
          if i == 0 {
            assert r[j] == rest[j - 1];
          } else {
            assert r[i] == rest[i - 1] && r[j] == rest[j - 1];
          }
        }
      }
    }
  }

  /** A tag list without duplicates stays without duplicates after any toggle. */
  lemma ToggleKeepsNoDuplicates(tags: seq<string>, tag: string)
    requires NoDuplicates(tags)
    ensures NoDuplicates(Toggled(tags, tag))
  {
    if tag in tags {
      WithoutKeepsNoDuplicates(tags, tag);
    } else {
      var r := tags + [tag];
      forall i, j | 0 <= i < j < |r| ensures r[i] != r[j] {
        if j == |tags| {
          assert r[i] == tags[i];
        } else {
          assert r[i] == tags[i] && r[j] == tags[j];
        }
      }
    }
  }

  /** The panel: the current filters and the values handed to the
      `onFiltersChange` listener, oldest first. */
  class Panel {
    var filters: SearchFilters
    var notified: seq<SearchFilters>

    constructor ()
      ensures filters == DefaultFilters && notified == []
    {
      filters := DefaultFilters;
      notified := [];
    }

    /** Stores the updated record and passes the same record to the listener. */
    method HandleFilterChange(change: FilterChange)
      modifies this
      ensures filters == Apply(old(filters), change)
      ensures notified == old(notified) + [filters]
    {
      var newFilters := Apply(filters, change);
      filters := newFilters;
      notified := notified + [newFilters];
    }

    /** Replaces the tag list by its toggle; nothing else changes. */
    method HandleTagToggle(tag: string)
      modifies this
      ensures filters == old(filters).(tags := Toggled(old(filters).tags, tag))
      ensures notified == old(notified) + [filters]
    {
      var newTags := if tag in filters.tags then Without(filters.tags, tag) else filters.tags + [tag];
      HandleFilterChange(SetTags(newTags));
    }

    /** Resets to the initial record and notifies the listener. */
    method ClearFilters()
      modifies this
      ensures filters == DefaultFilters
      ensures notified == old(notified) + [DefaultFilters]
    {
      var cleared := SearchFilters("", "", AnyOption, AnyOption, AnyOption, DateRange("", ""), []);
      filters := cleared;
      notified := notified + [cleared];
    }

    /** The start-date input: a new range with the old end date. */
    method EditDateFrom(value: string)
      modifies this
      ensures filters == old(filters).(dateRange := DateRange(value, old(filters).dateRange.to))
      ensures notified == old(notified) + [filters]
    {
      HandleFilterChange(SetDateRange(filters.dateRange.(from := value)));
    }

    /** The end-date input: a new range with the old start date. */
    method EditDateTo(value: string)
      modifies this
      ensures filters == old(filters).(dateRange := DateRange(old(filters).dateRange.from, value))
      ensures notified == old(notified) + [filters]
    {
      HandleFilterChange(SetDateRange(filters.dateRange.(to := value)));
    }
  }

  /** The default record has empty text fields, "any" for the three choices,
      an empty date range and no tags. */
  lemma DefaultsAreEmpty()
    ensures Get(DefaultFilters, SongName) == Text("") && Get(DefaultFilters, Artist) == Text("")
    ensures forall field :: field in {Key, Genre, Tempo} ==> Get(DefaultFilters, field) == Text(AnyOption)
    ensures Get(DefaultFilters, Dates) == Range(DateRange("", "")) && Get(DefaultFilters, Tags) == TagList([])
  {
  }
}
