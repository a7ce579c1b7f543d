/** The detail card: the `loading`/`details` state set by the card's fetch, the
    choice between the skeleton and the content, and the zero-padded id label. */
module PokemonCard {
  import opened Common
  import opened JsString

  /** One base stat of a detail record. */
  datatype Stat = Stat(baseStat: int, name: string)

  /** The detail record the card displays. Heights, weights and stats are kept
      as the integers the API sends. */
  datatype Details = Details(
    id: int,
    types: seq<string>,
    artwork: string,
    stats: seq<Stat>,
    height: int,
    weight: int)

  /** `details.id.toString().padStart(3, "0")`. */
  function IdLabel(id: int): (r: string)
    ensures |r| == Max(3, |NumberToString(id)|)
    ensures r[|r| - |NumberToString(id)|..] == NumberToString(id)
    ensures forall i :: 0 <= i < |r| - |NumberToString(id)| ==> r[i] == '0'
  {
    PadStart(NumberToString(id), 3, '0')
  }

  /** The label is the decimal id with enough `'0'` in front to reach three
      characters: its length is the larger of 3 and the id's own length, and its
      tail is the id's own text. */
  lemma IdLabelShape(id: int)
    ensures |IdLabel(id)| == Max(3, |NumberToString(id)|)
    ensures IdLabel(id) == Repeat('0', |IdLabel(id)| - |NumberToString(id)|) + NumberToString(id)
  {
  }

  /** Ids of three or more digits are shown as they are. */
  lemma IdLabelWide(id: int)
    requires id >= 100
    ensures IdLabel(id) == NumberToString(id)
  {
    DigitsLength(id);
  }

  /** Ids below 100 become exactly three characters. */
  lemma IdLabelNarrow(id: int)
    requires 0 <= id < 100
    ensures |IdLabel(id)| == 3
  {
    DigitsLength(id);
  }

  /** For a positive id, stripping the leading zeros of the label gives the id's
      digits back, and the label read as a decimal number is the id. */
  lemma IdLabelRoundTrip(id: int)
    requires id >= 1
    ensures StripLeadingZeros(IdLabel(id)) == NumberToString(id)
    ensures AllDigits(IdLabel(id)) && DecimalValue(IdLabel(id)) == id
  {
    var s := NumberToString(id);
    var n := |IdLabel(id)| - |s|;
    IdLabelShape(id);
    StripRepeatedZeros(n, s);
    DecimalValueLeadingZeros(n, s);
    DecimalValueOfDigits(id);
  }

  /** Labels of the first entries and of the last entry of the fetched list. */
  lemma IdLabelExamples()
    ensures IdLabel(1) == "001" && IdLabel(25) == "025" && IdLabel(151) == "151"
  {
    assert NumberToString(1) == "1";
    assert PadStart("1", 3, '0') == "001";
    assert NumberToString(25) == Digits(2) + ['5'] == "25";
    assert PadStart("25", 3, '0') == "025";
    assert NumberToString(151) == Digits(1) + ['5'] + ['1'] == "151";
  }

  /** What the card renders: the skeleton placeholder, or the content of a loaded record. */
  datatype CardView =
    | Skeleton
    | Content(name: string, artwork: string, types: seq<string>, idLabel: string)

  /** One card's state. `name` and `url` are its props. */
  class PokemonCardView {
    const name: string
    const url: string
    var details: Option<Details>
    var loading: bool

    /** `useState<PokemonDetails | null>(null)` and `useState(true)`. */
    constructor (name: string, url: string)
      ensures this.name == name && this.url == url
      ensures details == None && loading
    {
      this.name := name;
      this.url := url;
      details := None;
      loading := true;
    }

    /** The end of a fetch attempt: `setDetails(data)` when it succeeded, nothing
        when it threw, and `setLoading(false)` in every case. */
    method FetchSettled(outcome: FetchOutcome<Details>)
      modifies this
      ensures !loading
      ensures details == if outcome.Fetched? then Some(outcome.payload) else old(details)
    {
      if outcome.Fetched? {
        details := Some(outcome.payload);
      }
      loading := false;
    }

    /** A render: the skeleton exactly when loading or when no record is there,
        otherwise the record's content with the padded id label. */
    function Render(): (v: CardView)
      reads this
      ensures v.Skeleton? <==> loading || details.None?
      ensures v.Content? ==> v.name == name && v.types == details.value.types
      ensures v.Content? ==> v.idLabel == IdLabel(details.value.id)
    {
      if loading || details.None? then Skeleton
      else
        var d := details.value;
        Content(name, d.artwork, d.types, IdLabel(d.id))
    }
  }

  /** Mount, a failed fetch, then a render: the skeleton stays, with loading over. */
  method MountWithFailedFetch(name: string, url: string) returns (v: CardView, stillLoading: bool)
    ensures v == Skeleton && !stillLoading
  {
    var card := new PokemonCardView(name, url);
    card.FetchSettled(FetchFailed);
    v := card.Render();
    stillLoading := card.loading;
  }

  /** Mount, a successful fetch, then a render: the content of the fetched record. */
  method MountWithFetchedDetails(name: string, url: string, d: Details) returns (v: CardView)
    ensures v == Content(name, d.artwork, d.types, IdLabel(d.id))
  {
    var card := new PokemonCardView(name, url);
    card.FetchSettled(Fetched(d));
    v := card.Render();
  }
}
