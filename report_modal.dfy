/** The preview modal of relatorios.js and the downloads the page starts:
    `modalData` holds the day being previewed, the modal is visible exactly
    while it is set, and the `<a download>` clicks are recorded as a log of
    (link, file name) pairs. The preview reply is a parameter. */
module ReportModal {
  import opened Wrappers
  import opened Reports

  /** The day a preview was opened for: `{ano, mes, dia}`. */
  datatype DayRef = DayRef(year: Arg, month: Arg, day: Arg)

  /** One download the page started: the link and the file name it offers. */
  datatype Download = Download(link: string, fileName: string)

  /** The reply to a preview request: a JSON body with `erro`, one with the
      date and the formatted text, or a failed fetch or unreadable body. */
  datatype PreviewReply = PreviewError(message: string) | PreviewText(date: string, text: string) | PreviewFailed

  /** The download of one day's PDF. */
  function DayDownload(d: DayRef): Download {
    Download(DailyLink(d.year, d.month, d.day), DailyFileName(d.year, d.month, d.day))
  }

  /** The download of one month's PDF. */
  function MonthDownload(year: int, month: int): Download {
    Download(MonthlyLink(year, month), MonthlyFileName(year, month))
  }

  class ReportPage {
    /** `modalData`. */
    var modalData: Option<DayRef>
    /** Whether the modal is shown. */
    var modalVisible: bool
    /** The modal's title and text. */
    var modalTitle: string
    var modalText: string
    /** The message of the error pane, None while the reports show. */
    var errorShown: Option<string>
    /** Every download started so far, oldest first. */
    var downloads: seq<Download>

    /** The modal is visible exactly while it holds a day. */
    ghost predicate Valid()
      reads this
    {
      modalVisible <==> modalData.Some?
    }

    /** The page as it loads: the modal hidden and empty, nothing downloaded. */
    constructor ()
      ensures Valid()
      ensures modalData == None && !modalVisible && errorShown == None && downloads == []
    {
      modalData := None;
      modalVisible := false;
      modalTitle := "";
      modalText := "";
      errorShown := None;
      downloads := [];
    }

    /** The reply to `previewRelatorio(ano, mes, dia)`: a reply with the
        text opens the modal on that day; an error or a failed request shows
        the error pane and leaves the modal as it was. */
    method PreviewLoaded(day: DayRef, reply: PreviewReply)
      requires Valid()
      modifies this`modalData, this`modalVisible, this`modalTitle, this`modalText, this`errorShown
      ensures Valid()
      ensures reply.PreviewText? ==>
                && modalData == Some(day) && modalVisible
                && modalTitle == "Relat\U{F3}rio de " + reply.date && modalText == reply.text
                && errorShown == old(errorShown)
      ensures !reply.PreviewText? ==>
                && modalData == old(modalData) && modalVisible == old(modalVisible)
                && modalTitle == old(modalTitle) && modalText == old(modalText)
                && errorShown == Some(if reply.PreviewError? then reply.message else "Erro ao carregar preview")
    {
      match reply
      case PreviewError(message) =>
        errorShown := Some(message);
      case PreviewFailed =>
        errorShown := Some("Erro ao carregar preview");
      case PreviewText(date, text) =>
        modalData := Some(day);
        modalTitle := "Relat\U{F3}rio de " + date;
        modalText := text;
        modalVisible := true;
    }

    /** `fecharModal`, run by the close and cancel buttons, a click on the
        backdrop and the Escape key: the modal is hidden and forgets its
        day, whatever state it was in. */
    method CloseModal()
      requires Valid()
      modifies this`modalData, this`modalVisible
      ensures Valid()
      ensures modalData == None && !modalVisible
    {
      modalVisible := false;
      modalData := None;
    }

    /** `downloadRelatorio(ano, mes, dia)`: one more download, of that day. */
    method DownloadDay(day: DayRef)
      requires Valid()
      modifies this`downloads
      ensures Valid()
      ensures downloads == old(downloads) + [DayDownload(day)]
    {
      downloads := downloads + [Download(DailyLink(day.year, day.month, day.day),
                                         DailyFileName(day.year, day.month, day.day))];
    }

    /** `downloadRelatorioMensal(ano, mes)`: one more download, of that month. */
    method DownloadMonth(year: int, month: int)
      requires Valid()
      modifies this`downloads
      ensures Valid()
      ensures downloads == old(downloads) + [MonthDownload(year, month)]
    {
      downloads := downloads + [Download(MonthlyLink(year, month), MonthlyFileName(year, month))];
    }

    /** `downloadDoModal`: with no day held nothing happens; otherwise that
        day is downloaded and the modal closes. */
    method DownloadFromModal()
      requires Valid()
      modifies this`downloads, this`modalData, this`modalVisible
      ensures Valid()
      ensures old(modalData).None? ==> downloads == old(downloads) && modalData == None && !modalVisible
      ensures old(modalData).Some? ==>
                downloads == old(downloads) + [DayDownload(old(modalData).value)]
                && modalData == None && !modalVisible
    {
      if modalData.Some? {
        DownloadDay(modalData.value);
        CloseModal();
      }
    }

    /** The Escape key closes the modal only while it is shown. */
    method PressEscape()
      requires Valid()
      modifies this`modalData, this`modalVisible
      ensures Valid()
      ensures modalData == None && !modalVisible
    {
      if modalVisible {
        CloseModal();
      }
    }
  }
}
