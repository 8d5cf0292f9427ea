/**
 * `GeoConverter`: a source folder and a file stem, from which each step
 * builds its paths with f-strings (`folder\name.ext`); its CSV step is the
 * CSV-to-GeoJSON conversion on those paths.
 */
module GeoConversion {
  import opened Wrappers
  import opened PyJson
  import opened CsvToGeoJson

  class GeoConverter {
    const sourceFolder: string
    const fileName: string

    constructor (sourceFolder: string, fileName: string)
      ensures this.sourceFolder == sourceFolder && this.fileName == fileName
    {
      this.sourceFolder := sourceFolder;
      this.fileName := fileName;
    }

    /** `f"{self.source_folder}\\{self.file_name}"`, the part every path shares. */
    function Stem(): (r: string)
      ensures |r| == |sourceFolder| + 1 + |fileName|
      ensures r[..|sourceFolder|] == sourceFolder && r[|sourceFolder|] == '\\' && r[|sourceFolder| + 1..] == fileName
    {
      sourceFolder + "\\" + fileName
    }

    /** `xlsx_src` of `convert_xlsx_to_csv`. */
    function XlsxSource(): (r: string)
      ensures |r| > |sourceFolder| + 5 && r[..|sourceFolder| + 1] == sourceFolder + "\\"
      ensures r[|r| - 5..] == ".xlsx"
    {
      sourceFolder + "\\" + fileName + ".xlsx"
    }

    /** `csv_dest` of `convert_xlsx_to_csv`. */
    function CsvDestination(): (r: string)
      ensures |r| > |sourceFolder| + 4 && r[..|sourceFolder| + 1] == sourceFolder + "\\"
      ensures r[|r| - 4..] == ".csv"
    {
      sourceFolder + "\\" + fileName + ".csv"
    }

    /** `geojson_dest` of `convert_csv_to_geojson`. */
    function GeojsonDestination(): (r: string)
      ensures |r| > |sourceFolder| + 8 && r[..|sourceFolder| + 1] == sourceFolder + "\\"
      ensures r[|r| - 8..] == ".geojson"
    {
      sourceFolder + "\\" + fileName + ".geojson"
    }

    /** `csv_src` of `convert_csv_to_geojson`. */
    function CsvSource(): (r: string)
      ensures |r| > |sourceFolder| + 4 && r[..|sourceFolder| + 1] == sourceFolder + "\\"
      ensures r[|r| - 4..] == ".csv"
    {
      sourceFolder + "\\" + fileName + ".csv"
    }

    /** The xlsx step writes the very file the CSV step reads. */
    lemma CsvHandOff()
      ensures CsvDestination() == CsvSource()
    {
    }

    /**
     * Source and destination of the CSV step share folder and stem, differ
     * only in the extension, and so are never the same path.
     */
    lemma PathsShareStem()
      ensures CsvSource() == Stem() + ".csv"
      ensures GeojsonDestination() == Stem() + ".geojson"
      ensures XlsxSource() == Stem() + ".xlsx"
      ensures CsvSource()[..|Stem()|] == GeojsonDestination()[..|Stem()|] == Stem()
      ensures CsvSource() != GeojsonDestination()
    {
      assert |CsvSource()| != |GeojsonDestination()|;
    }

    /**
     * `convert_csv_to_geojson()`: reads `CsvSource()`, and on success writes
     * the FeatureCollection to `GeojsonDestination()` and touches nothing
     * else; on any failure nothing is written.
     */
    method ConvertCsvToGeojson(lib: Builtins, fs: FileSystem) returns (r: Result<(), ConversionError>)
      modifies fs
      ensures CsvSource() !in old(fs.files) ==> r == Err(SourceMissing(CsvSource())) && fs.files == old(fs.files)
      ensures CsvSource() in old(fs.files) ==>
        match ConvertRows(lib, ReadRows(lib, old(fs.files)[CsvSource()]))
        case Ok(collection) => r.Ok? && fs.files == old(fs.files)[GeojsonDestination() := GeoJsonText(collection)]
        case Err(e) => r == Err(e) && fs.files == old(fs.files)
    {
      r := CsvToGeoJson.ConvertCsvToGeojson(lib, fs, CsvSource(), GeojsonDestination());
    }
  }
}
