/** The box-office client: turns the decoded weekly box-office response into
    the normalised record the report is built from (`get_movie_info`). */
module BoxOfficeClient {
  import opened Wrappers
  import opened PyInt
  import opened Thousands
  import opened RankChange
  import opened Lists

  /** One element of `weeklyBoxOfficeList`, every field as the JSON text gives it. */
  datatype RawMovie = RawMovie(
    rank: string,
    rankInten: string,
    rankOldAndNew: string,
    movieNm: string,
    openDt: string,
    audiAcc: string,
    salesShare: string)

  /** The `boxOfficeResult` object of the response. */
  datatype BoxOfficeResult = BoxOfficeResult(
    showRange: string,
    boxofficeType: string,
    weeklyBoxOfficeList: seq<RawMovie>)

  /** The HTTP response: its status code and its decoded JSON body. */
  datatype Response = Response(statusCode: int, boxOfficeResult: BoxOfficeResult)

  /** One normalised table entry. */
  datatype Movie = Movie(
    rank: string,
    rankChange: string,
    name: string,
    openDate: string,
    audiAcc: string,
    salesShare: string)

  /** What `get_movie_info` returns on success. */
  datatype MovieInfo = MovieInfo(showRange: string, boxofficeType: string, movies: seq<Movie>)

  /** The `ValueError` raised by `int(m['audiAcc'])`, with the position of the entry. */
  datatype Error = AudiAccNotInteger(index: nat, audiAcc: string)

  /** The only status code accepted as success. */
  const StatusOk := 200

  /** The output record for one raw entry; `None` where converting the
      cumulative attendance raises. */
  function NormaliseMovie(m: RawMovie): (r: Option<Movie>)
    ensures r.Some? <==> ParseInt(m.audiAcc).Some?
    ensures r.Some? ==>
      && r.value.rank == m.rank
      && r.value.name == m.movieNm
      && r.value.openDate == m.openDt
      && r.value.rankChange == FormatRankChange(m.rankInten, m.rankOldAndNew)
      && r.value.audiAcc == FormatThousands(ParseInt(m.audiAcc).value)
      && RemoveCommas(r.value.audiAcc) == IntToString(ParseInt(m.audiAcc).value)
      && |r.value.salesShare| == |m.salesShare| + 1
      && r.value.salesShare[..|m.salesShare|] == m.salesShare
      && r.value.salesShare[|m.salesShare|] == '%'
  {
    match ParseInt(m.audiAcc)
    case None => None
    case Some(audience) =>
      ThousandsRoundTrip(audience);
      Some(Movie(
        m.rank,
        FormatRankChange(m.rankInten, m.rankOldAndNew),
        m.movieNm,
        m.openDt,
        FormatThousands(audience),
        m.salesShare + "%"))
  }

  /** The list the entry loop builds, or the error its first bad entry raises. */
  function NormaliseAll(ms: seq<RawMovie>): (r: Result<seq<Movie>, Error>)
  {
    match MapUntilNone(NormaliseMovie, ms)
    case Ok(movies) => Ok(movies)
    case Err(k) => Err(AudiAccNotInteger(k, ms[k].audiAcc))
  }

  /** The loop keeps count and order, output entry i coming from input entry
      i; it fails exactly when some entry's attendance does not convert, and
      then with the first such entry. */
  lemma NormaliseAllSpec(ms: seq<RawMovie>)
    ensures NormaliseAll(ms).Ok? <==> AllAccepted(NormaliseMovie, ms)
    ensures NormaliseAll(ms).Ok? ==>
      var out := NormaliseAll(ms).value;
      |out| == |ms| && forall i :: 0 <= i < |ms| ==> NormaliseMovie(ms[i]) == Some(out[i])
    ensures NormaliseAll(ms).Err? ==>
      var e := NormaliseAll(ms).error;
      && e.index < |ms|
      && e.audiAcc == ms[e.index].audiAcc
      && ParseInt(ms[e.index].audiAcc).None?
      && AllAccepted(NormaliseMovie, ms[..e.index])
  {
    if AllAccepted(NormaliseMovie, ms) {
      MapUntilNoneOk(NormaliseMovie, ms);
    } else {
      MapUntilNoneErr(NormaliseMovie, ms);
    }
  }

  /** The entry loop of `get_movie_info`: appends one normalised record per raw
      entry, and stops with the error of the first entry whose attendance
      does not convert. */
  method BuildMovieList(movies: seq<RawMovie>) returns (r: Result<seq<Movie>, Error>)
    ensures r == NormaliseAll(movies)
    ensures r.Ok? ==>
      |r.value| == |movies| && forall i :: 0 <= i < |movies| ==> NormaliseMovie(movies[i]) == Some(r.value[i])
  {
    var movieList: seq<Movie> := [];
    var i := 0;
    while i < |movies|
      invariant 0 <= i <= |movies|
      invariant MapUntilNone(NormaliseMovie, movies[..i]) == Ok(movieList)
    {
      assert movies[..i + 1][..i] == movies[..i];
      match NormaliseMovie(movies[i]) {
        case None =>
          FailsAt(movies, i, movieList);
          return Err(AudiAccNotInteger(i, movies[i].audiAcc));
        case Some(movie) =>
          movieList := movieList + [movie];
      }
      i := i + 1;
    }
    assert movies[..i] == movies;
    r := Ok(movieList);
    NormaliseAllSpec(movies);
  }

  /** An entry that fails after a prefix that converted fails the whole list. */
  lemma FailsAt(ms: seq<RawMovie>, i: nat, done: seq<Movie>)
    requires i < |ms| && MapUntilNone(NormaliseMovie, ms[..i]) == Ok(done)
    requires NormaliseMovie(ms[i]).None?
    ensures NormaliseAll(ms) == Err(AudiAccNotInteger(i, ms[i].audiAcc))
  {
    assert ms[..i + 1][..i] == ms[..i];
    assert MapUntilNone(NormaliseMovie, ms[..i + 1]) == Err(i);
    SameFirstFailure(NormaliseMovie, ms, i + 1);
  }

  /** `get_movie_info` after the request: `None` for any status other than
      200, otherwise the labels and the normalised list, or the error the
      entry loop raises. */
  method GetMovieInfo(response: Response) returns (r: Result<Option<MovieInfo>, Error>)
    ensures response.statusCode != StatusOk ==> r == Ok(None)
    ensures response.statusCode == StatusOk ==>
      var result := response.boxOfficeResult;
      match NormaliseAll(result.weeklyBoxOfficeList)
      case Err(e) => r == Err(e)
      case Ok(movies) => r == Ok(Some(MovieInfo(result.showRange, result.boxofficeType, movies)))
  {
    if response.statusCode != StatusOk {
      return Ok(None);
    }
    var boxOffice := response.boxOfficeResult;
    var movieList := BuildMovieList(boxOffice.weeklyBoxOfficeList);
    match movieList {
      case Err(e) =>
        r := Err(e);
      case Ok(movies) =>
        r := Ok(Some(MovieInfo(boxOffice.showRange, boxOffice.boxofficeType, movies)));
    }
  }
}
