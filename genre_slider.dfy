// The genre sliders: a weight in [0, 1] per genre, edited on a slider of 0..99,
// and the search window of ±0.03 around the weight that a click announces.
// The option list, the labels and the sparkline of the feature distribution
// are widgets outside the model; the highlighted option is a parameter.
module GenreSliders {
  import opened Wrappers
  import PyStr

  /** The genres, in the order the option list shows them. */
  const Genres: seq<string> :=
    ["alternative", "blues", "electronic", "folkcountry", "funksoulrnb", "jazz", "pop", "raphiphop", "rock"]
  const InitialValue: real := 0.5
  /** Half the width of the announced window, in hundredths. */
  const Spread: real := 3.0
  const LabelSuffix: string := "-amp-label"

  /** The window `(max((v*100 - 3)/100, 0), min((v*100 + 3)/100, 1))` around a weight. */
  function Window(v: real): (w: (real, real))
    ensures 0.0 <= w.0 && w.1 <= 1.0
    ensures w.0 == 0.0 <==> v <= Spread / 100.0
    ensures w.1 == 1.0 <==> v >= 1.0 - Spread / 100.0
  {
    var lower := (v * 100.0 - Spread) / 100.0;
    var upper := (v * 100.0 + Spread) / 100.0;
    (if lower > 0.0 then lower else 0.0, if upper < 1.0 then upper else 1.0)
  }

  /** For a weight in [0, 1] the window contains it, lies in [0, 1] and is at most 0.06 wide. */
  lemma WindowAroundValue(v: real)
    requires 0.0 <= v <= 1.0
    ensures Window(v).0 <= v <= Window(v).1
    ensures Window(v).1 - Window(v).0 <= 2.0 * Spread / 100.0
    ensures Spread / 100.0 <= v <= 1.0 - Spread / 100.0 ==>
              Window(v) == (v - Spread / 100.0, v + Spread / 100.0)
  {
  }

  /** The id of the slider created for a genre, `f"{genre}-amp"`. */
  function SliderId(genre: string): string
  {
    genre + "-amp"
  }

  /** The genre a slider belongs to: its label id `f"{slider_id}-label"` without "-amp-label". */
  function GenreOfSlider(sliderId: string): string
  {
    PyStr.ReplaceAll(sliderId + "-label", LabelSuffix, "")
  }

  /** Appending the suffix to a hyphen-free name and removing it again gives the name back. */
  lemma {:induction false} StripSuffix(g: string)
    requires '-' !in g
    ensures PyStr.ReplaceAll(g + LabelSuffix, LabelSuffix, "") == g
    decreases |g|
  {
    var s := g + LabelSuffix;
    if g == [] {
      assert s == LabelSuffix;
      assert s[|LabelSuffix|..] == [];
    } else {
      assert s[..|LabelSuffix|][0] == g[0] != '-';
      assert s[1..] == g[1..] + LabelSuffix;
      StripSuffix(g[1..]);
    }
  }

  /** A slider's changes land on its own genre: the genre id round-trips for every hyphen-free genre. */
  lemma GenreOfOwnSlider(genre: string)
    requires '-' !in genre
    ensures GenreOfSlider(SliderId(genre)) == genre
  {
    assert SliderId(genre) + "-label" == genre + LabelSuffix;
    StripSuffix(genre);
  }

  /** Each listed genre's slider reports back to that genre. */
  lemma ListedGenresRoundTrip()
    ensures forall i :: 0 <= i < |Genres| ==> GenreOfSlider(SliderId(Genres[i])) == Genres[i]
  {
    forall i | 0 <= i < |Genres|
      ensures GenreOfSlider(SliderId(Genres[i])) == Genres[i]
    {
      assert '-' !in Genres[i];
      GenreOfOwnSlider(Genres[i]);
    }
  }

  /** The "Genre selected" event a click posts: the genre and its window. */
  datatype GenreEvent = GenreEvent(genre: string, lower: real, upper: real)

  /** The `GenreSliders` widget's state. */
  class Sliders {
    var genreValues: map<string, real>
    var selectedGenre: Option<string>
    var selectedValue: real

    /** Every listed genre has a weight, and every weight is in [0, 1]. */
    ghost predicate Valid()
      reads this
    {
      (forall i :: 0 <= i < |Genres| ==> Genres[i] in genreValues) &&
      (forall g :: g in genreValues ==> 0.0 <= genreValues[g] <= 1.0)
    }

    constructor ()
      ensures forall i :: 0 <= i < |Genres| ==> Genres[i] in genreValues
      ensures forall g :: g in genreValues ==> g in Genres && genreValues[g] == InitialValue
      ensures selectedGenre == None && selectedValue == InitialValue
      ensures Valid()
    {
      genreValues := map[
        "alternative" := 0.5, "blues" := 0.5, "electronic" := 0.5, "folkcountry" := 0.5,
        "funksoulrnb" := 0.5, "jazz" := 0.5, "pop" := 0.5, "raphiphop" := 0.5, "rock" := 0.5];
      selectedGenre := None;
      selectedValue := InitialValue;
    }

    /**
     * `send_event`: the highlighted option's genre (Python indexing into the
     * list; nothing highlighted or out of range raises) and the window around
     * its weight.
     */
    method SendEvent(highlighted: Option<int>) returns (r: Result<GenreEvent>)
      ensures highlighted.None? || PyStr.PyIndex(Genres, highlighted.value).None? ==> r == Err(IndexError)
      ensures r.Ok? ==> r.value.genre in Genres
      ensures r.Ok? ==> r.value.genre in genreValues &&
                        (r.value.lower, r.value.upper) == Window(genreValues[r.value.genre])
      ensures Valid() && highlighted.Some? && PyStr.PyIndex(Genres, highlighted.value).Some? ==> r.Ok?
    {
      if highlighted.None? {
        return Err(IndexError);
      }
      var option := PyStr.PyIndex(Genres, highlighted.value);
      if option.None? {
        return Err(IndexError);
      }
      var genre := option.value;
      if genre !in genreValues {
        return Err(KeyError);
      }
      var window := Window(genreValues[genre]);
      r := Ok(GenreEvent(genre, window.0, window.1));
    }

    /**
     * `on_slider_changed`: the slider's genre takes the slider's value over 100
     * and becomes the selection; the result is the window its label shows.
     */
    method OnSliderChanged(sliderId: string, eventValue: real) returns (window: (real, real))
      modifies this`genreValues, this`selectedGenre, this`selectedValue
      ensures genreValues == old(genreValues)[GenreOfSlider(sliderId) := eventValue / 100.0]
      ensures selectedGenre == Some(GenreOfSlider(sliderId)) && selectedValue == eventValue / 100.0
      ensures window == Window(selectedValue)
      ensures old(Valid()) && 0.0 <= eventValue <= 100.0 ==> Valid()
    {
      var value := eventValue / 100.0;
      var genre := GenreOfSlider(sliderId);
      selectedGenre := Some(genre);
      genreValues := genreValues[genre := value];
      selectedValue := value;
      window := Window(value);
    }

    /**
     * `on_option_list_option_selected`: the chosen genre becomes the selection;
     * the result is the position its new slider starts at (weight times 100).
     */
    method OnOptionSelected(genre: string) returns (r: Result<real>)
      modifies this`selectedGenre, this`selectedValue
      ensures genre !in genreValues ==>
                r == Err(KeyError) && selectedGenre == old(selectedGenre) && selectedValue == old(selectedValue)
      ensures genre in genreValues ==>
                r == Ok(genreValues[genre] * 100.0) && selectedGenre == Some(genre) && selectedValue == genreValues[genre]
    {
      if genre !in genreValues {
        return Err(KeyError);
      }
      var value := genreValues[genre];
      selectedGenre := Some(genre);
      selectedValue := value;
      r := Ok(value * 100.0);
    }
  }

  /** Moving a genre's slider changes that genre's weight only. */
  lemma SliderChangesOneGenre(values: map<string, real>, genre: string, eventValue: real, other: string)
    requires other in values && other != GenreOfSlider(SliderId(genre))
    ensures other in values[GenreOfSlider(SliderId(genre)) := eventValue / 100.0]
    ensures values[GenreOfSlider(SliderId(genre)) := eventValue / 100.0][other] == values[other]
  {
  }
}
