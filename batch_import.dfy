/**
 * The state of the batch import component: the preview of a validated upload and
 * whether it is shown. An upload reads the file (the decodings are parameters), parses
 * it, validates the rows against the cities already loaded and shows the preview;
 * confirming hands the accepted cities to the caller, cancelling drops them.
 */
module BatchImport {
  import opened Wrappers
  import opened BatchRecords
  import opened BatchCsv
  import opened BatchValidation

  /** The first data row of the file is its line 2, after the header. */
  const FirstDataRow := 2

  /**
   * The preview an upload produces: `None` when the UTF-8 retry fails or the text has
   * fewer than two non-blank lines, else the validation of its rows.
   */
  function UploadPreview(existing: seq<BatchCity>, cfg: Config, decodings: seq<Option<string>>, utf8Retry: Option<string>): Option<ImportPreview> {
    match ChosenText(decodings, utf8Retry)
    case None => None
    case Some(text) =>
      match ParseCsv(text)
      case None => None
      case Some(rows) => Some(Validate(existing, cfg, rows, FirstDataRow))
  }

  /**
   * A preview counts every data line of the file as a row, and is there exactly when a
   * text was read that has a header and at least one data line.
   */
  lemma UploadPreviewRows(existing: seq<BatchCity>, cfg: Config, decodings: seq<Option<string>>, utf8Retry: Option<string>)
    ensures UploadPreview(existing, cfg, decodings, utf8Retry).Some? <==>
      ChosenText(decodings, utf8Retry).Some? && |Lines(ChosenText(decodings, utf8Retry).value)| >= 2
    ensures UploadPreview(existing, cfg, decodings, utf8Retry).Some? ==>
      UploadPreview(existing, cfg, decodings, utf8Retry).value.totalRows == |Lines(ChosenText(decodings, utf8Retry).value)| - 1
      && UploadPreview(existing, cfg, decodings, utf8Retry).value.totalRows >= 1
  {
    if ChosenText(decodings, utf8Retry).Some? {
      ParseCsvCount(ChosenText(decodings, utf8Retry).value);
    }
  }

  /** Reading, parsing and validating an upload, as `UploadPreview` describes. */
  method ReadUpload(existing: seq<BatchCity>, cfg: Config, decodings: seq<Option<string>>, utf8Retry: Option<string>)
    returns (preview: Option<ImportPreview>)
    requires |decodings| == |Encodings|
    ensures preview == UploadPreview(existing, cfg, decodings, utf8Retry)
  {
    var text, _ := ChooseText(decodings, utf8Retry);
    if text.None? {
      return None;
    }
    var rows := ParseCsvText(text.value);
    if rows.None? {
      return None;
    }
    var validated := ValidateCityData(existing, cfg, rows.value, FirstDataRow);
    preview := Some(validated);
  }

  class BatchOperations {
    /** The validated upload on show, if any. */
    var importPreview: Option<ImportPreview>
    var showPreview: bool
    var isImporting: bool
    /** The validator the component applies to an upload. */
    const config: Config

    constructor()
      ensures importPreview == None && !showPreview && !isImporting
      ensures config == BatchConfig
    {
      config := BatchConfig;
      importPreview, showPreview, isImporting := None, false, false;
    }

    /**
     * The upload handler. Without a file nothing happens; when the text cannot be read or
     * has too few lines the alert is the only effect; otherwise the preview of the rows,
     * validated against `existing` with `config`, is shown.
     */
    method HandleFileUpload(existing: seq<BatchCity>, hasFile: bool, decodings: seq<Option<string>>, utf8Retry: Option<string>)
      requires |decodings| == |Encodings|
      modifies this
      ensures !hasFile ==> importPreview == old(importPreview) && showPreview == old(showPreview) && isImporting == old(isImporting)
      ensures hasFile ==> !isImporting
      ensures hasFile && UploadPreview(existing, config, decodings, utf8Retry).None? ==>
        importPreview == old(importPreview) && showPreview == old(showPreview)
      ensures hasFile && UploadPreview(existing, config, decodings, utf8Retry).Some? ==>
        importPreview == UploadPreview(existing, config, decodings, utf8Retry) && showPreview
    {
      if !hasFile {
        return;
      }
      isImporting := true;
      var preview := ReadUpload(existing, config, decodings, utf8Retry);
      ShowPreview(preview);
      isImporting := false;
    }

    /** A preview that was produced replaces the one on show and is shown. */
    method ShowPreview(preview: Option<ImportPreview>)
      modifies this
      ensures preview.Some? ==> importPreview == preview && showPreview
      ensures preview.None? ==> importPreview == old(importPreview) && showPreview == old(showPreview)
      ensures isImporting == old(isImporting)
    {
      if preview.Some? {
        importPreview := preview;
        showPreview := true;
      }
    }

    /**
     * Confirming a preview returns exactly its accepted cities, for `onImport`, and
     * closes it; without a preview nothing happens.
     */
    method HandleConfirmImport() returns (imported: Option<seq<BatchCity>>)
      modifies this
      ensures old(importPreview).Some? ==>
        imported == Some(old(importPreview).value.validCities) && importPreview == None && !showPreview
      ensures old(importPreview).None? ==> imported == None && showPreview == old(showPreview) && importPreview == None
      ensures isImporting == old(isImporting)
    {
      imported := None;
      if importPreview.Some? {
        imported := Some(importPreview.value.validCities);
        showPreview := false;
        importPreview := None;
      }
    }

    /** Cancelling closes the preview and drops it, importing nothing. */
    method HandleCancelImport()
      modifies this
      ensures importPreview == None && !showPreview && isImporting == old(isImporting)
    {
      showPreview := false;
      importPreview := None;
    }
  }
}
