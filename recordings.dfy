/**
 * The `recording.completed` event of the Zoom webhook (app.js:716-804): each
 * recording file with a download URL is handled at most once per request, and
 * not at all when one of the meeting's stored download URLs already mentions
 * its id. A chat file replaces the meeting's stored chat; a video file is
 * uploaded and its URL appended to the meeting's downloads.
 */
module ZoomRecordings {
  import opened Wrappers
  import opened Values
  import opened Text
  import opened ZoomChat

  /** A file of `payload.object.recording_files`; an empty download URL counts as none. */
  datatype RecordingFile = RecordingFile(id: string, downloadUrl: MetaString, fileType: string)

  /** The meeting's Zoom record: its chat and the URLs of its uploaded recordings. */
  datatype ZoomRecord = ZoomRecord(meetingId: string, chat: Option<seq<ChatLine>>, download: seq<string>)

  /** `toLowerCase` on ASCII letters. */
  function ToLowerAscii(s: string): (r: string)
    ensures |r| == |s|
    ensures forall k :: 0 <= k < |s| ==> r[k] == (if 'A' <= s[k] <= 'Z' then (s[k] as int + 32) as char else s[k])
  {
    if s == [] then []
    else [if 'A' <= s[0] <= 'Z' then (s[0] as int + 32) as char else s[0]] + ToLowerAscii(s[1..])
  }

  /** `file.file_type.toLowerCase()`: no ASCII capital is left. */
  function Extension(f: RecordingFile): (ext: string)
    ensures |ext| == |f.fileType|
    ensures forall k :: 0 <= k < |ext| ==> !('A' <= ext[k] <= 'Z')
  {
    ToLowerAscii(f.fileType)
  }

  /** `${meetingId}-${file.id}`. */
  function Key(meetingId: string, fileId: string): string
  {
    meetingId + "-" + fileId
  }

  /** Within one meeting, the key determines the file id. */
  lemma KeyInjective(meetingId: string, a: string, b: string)
    requires Key(meetingId, a) == Key(meetingId, b)
    ensures a == b
  {
    var n := |meetingId| + 1;
    assert Key(meetingId, a)[n..] == a;
    assert Key(meetingId, b)[n..] == b;
  }

  /** `zoomRecord?.download?.some((u) => u.includes(file.id))`. */
  predicate StoredMentions(stored: seq<string>, fileId: string)
  {
    exists u :: u in stored && Includes(u, fileId)
  }

  /** The state the loop carries: the cache of keys, the chat last written, the uploaded URLs, and (for the proofs) the files handled. */
  datatype Scan = Scan(cache: set<string>, chat: Option<seq<ChatLine>>, uploads: seq<string>, handled: seq<RecordingFile>)

  /** One iteration of app.js:743-796; `fetchChat` and `upload` stand for the download and the upload to storage. */
  function Step(st: Scan, meetingId: string, stored: seq<string>, f: RecordingFile,
                fetchChat: RecordingFile -> string, upload: RecordingFile -> Option<string>): (r: Scan)
    ensures r.handled == st.handled + [f] <==>
      Truthy(f.downloadUrl) && Key(meetingId, f.id) !in st.cache && !StoredMentions(stored, f.id)
    ensures r.handled == st.handled || r.handled == st.handled + [f]
    ensures r.handled == st.handled ==> r == st
    ensures r.handled != st.handled ==> r.cache == st.cache + {Key(meetingId, f.id)}
    ensures r.chat == (if r.handled != st.handled && Extension(f) == "chat" then Some(ParseChat(fetchChat(f))) else st.chat)
    ensures r.uploads == st.uploads
         || (r.handled == st.handled + [f] && IsUploaded(f, upload) && r.uploads == st.uploads + [upload(f).value])
  {
    if !Truthy(f.downloadUrl) then st
    else
      var key := Key(meetingId, f.id);
      if key in st.cache || StoredMentions(stored, f.id) then st
      else
        var marked := st.(cache := st.cache + {key}, handled := st.handled + [f]);
        if Extension(f) == "chat" then marked.(chat := Some(ParseChat(fetchChat(f))))
        else if Extension(f) == "mp4" && upload(f).Some? then marked.(uploads := marked.uploads + [upload(f).value])
        else marked
  }

  /** The loop over all files, from an empty cache. */
  function ScanAll(meetingId: string, stored: seq<string>, files: seq<RecordingFile>,
                   fetchChat: RecordingFile -> string, upload: RecordingFile -> Option<string>): (st: Scan)
    ensures |st.uploads| <= |st.handled| <= |files|
  {
    if files == [] then Scan({}, None, [], [])
    else Step(ScanAll(meetingId, stored, files[..|files| - 1], fetchChat, upload),
              meetingId, stored, files[|files| - 1], fetchChat, upload)
  }

  /** The download URLs stored before the loop; a missing record has none. */
  function StoredOf(record: Option<ZoomRecord>): seq<string>
  {
    if record.Some? then record.value.download else []
  }

  /** The record after the writes of app.js:773-776 and 798-802; a missing record stays missing. */
  function Updated(record: Option<ZoomRecord>, st: Scan): (r: Option<ZoomRecord>)
    ensures r.Some? <==> record.Some?
    ensures r.Some? ==> r.value.meetingId == record.value.meetingId
    ensures r.Some? ==> |r.value.download| == |record.value.download| + |st.uploads|
    ensures r.Some? ==> r.value.download[..|record.value.download|] == record.value.download
    ensures r.Some? ==> r.value.download[|record.value.download|..] == st.uploads
    ensures r.Some? ==> r.value.chat == (if st.chat.Some? then st.chat else record.value.chat)
  {
    if record.None? then None
    else
      var r := record.value;
      Some(r.(chat := if st.chat.Some? then st.chat else r.chat, download := r.download + st.uploads))
  }

  // ---------------------------------------------------------------------------
  // Properties

  /** A file the loop must handle once: it has a download URL and no stored URL mentions it. */
  predicate Eligible(stored: seq<string>, f: RecordingFile)
  {
    Truthy(f.downloadUrl) && !StoredMentions(stored, f.id)
  }

  predicate IsUploaded(f: RecordingFile, upload: RecordingFile -> Option<string>)
  {
    Extension(f) == "mp4" && upload(f).Some?
  }

  /**
   * Every file handled is an eligible file of the request, no two handled
   * files share a key, and the cache holds exactly their keys.
   */
  lemma {:induction false} HandledOnce(meetingId: string, stored: seq<string>, files: seq<RecordingFile>,
                                       fetchChat: RecordingFile -> string, upload: RecordingFile -> Option<string>)
    ensures var st := ScanAll(meetingId, stored, files, fetchChat, upload);
      && (forall h :: h in st.handled ==> h in files && Eligible(stored, h))
      && (forall i, j :: 0 <= i < j < |st.handled| ==> Key(meetingId, st.handled[i].id) != Key(meetingId, st.handled[j].id))
      && (forall key :: key in st.cache <==> exists h :: h in st.handled && key == Key(meetingId, h.id))
  {
    if files != [] {
      var init := files[..|files| - 1];
      var f := files[|files| - 1];
      HandledOnce(meetingId, stored, init, fetchChat, upload);
      var before := ScanAll(meetingId, stored, init, fetchChat, upload);
      var st := ScanAll(meetingId, stored, files, fetchChat, upload);
      assert forall h :: h in init ==> h in files;
      if st.handled != before.handled {
        assert st.handled == before.handled + [f];
        assert Key(meetingId, f.id) !in before.cache;
        forall i, j | 0 <= i < j < |st.handled|
          ensures Key(meetingId, st.handled[i].id) != Key(meetingId, st.handled[j].id)
        {
          if j == |before.handled| {
            assert st.handled[i] in before.handled;
          }
        }
      }
    }
  }

  /** Every eligible file of the request has its key in the cache: none is skipped unhandled. */
  lemma {:induction false} EligibleFilesCovered(meetingId: string, stored: seq<string>, files: seq<RecordingFile>,
                                                fetchChat: RecordingFile -> string, upload: RecordingFile -> Option<string>)
    ensures var st := ScanAll(meetingId, stored, files, fetchChat, upload);
      forall f :: f in files && Eligible(stored, f) ==> Key(meetingId, f.id) in st.cache
  {
    if files != [] {
      var init := files[..|files| - 1];
      EligibleFilesCovered(meetingId, stored, init, fetchChat, upload);
      assert forall f :: f in files ==> f in init || f == files[|files| - 1];
    }
  }

  /** The uploaded URLs are those of the handled video files whose upload succeeded. */
  ghost predicate UploadsMatch(st: Scan, upload: RecordingFile -> Option<string>)
  {
    && (forall u :: u in st.uploads ==> exists h :: h in st.handled && IsUploaded(h, upload) && upload(h) == Some(u))
    && (forall h :: h in st.handled && IsUploaded(h, upload) ==> upload(h).value in st.uploads)
  }

  /** One iteration keeps the uploads matched to the handled files. */
  lemma UploadsMatchStep(st: Scan, meetingId: string, stored: seq<string>, f: RecordingFile,
                         fetchChat: RecordingFile -> string, upload: RecordingFile -> Option<string>)
    requires UploadsMatch(st, upload)
    ensures UploadsMatch(Step(st, meetingId, stored, f, fetchChat, upload), upload)
  {
    var r := Step(st, meetingId, stored, f, fetchChat, upload);
    if r.handled != st.handled {
      forall u | u in r.uploads ensures exists h :: h in r.handled && IsUploaded(h, upload) && upload(h) == Some(u) {
        if u in st.uploads {
          var h :| h in st.handled && IsUploaded(h, upload) && upload(h) == Some(u);
          assert h in r.handled;
        } else {
          assert f in r.handled && upload(f) == Some(u);
        }
      }
    }
  }

  /** The uploaded URLs are those of the handled video files whose upload succeeded, and no others. */
  lemma {:induction false} UploadsOfHandledVideos(meetingId: string, stored: seq<string>, files: seq<RecordingFile>,
                                                  fetchChat: RecordingFile -> string, upload: RecordingFile -> Option<string>)
    ensures UploadsMatch(ScanAll(meetingId, stored, files, fetchChat, upload), upload)
  {
    if files != [] {
      var init := files[..|files| - 1];
      UploadsOfHandledVideos(meetingId, stored, init, fetchChat, upload);
      UploadsMatchStep(ScanAll(meetingId, stored, init, fetchChat, upload), meetingId, stored, files[|files| - 1], fetchChat, upload);
    }
  }

  /** The chat written, if any, is the parse of a handled chat file's transcript. */
  lemma {:induction false} ChatFromHandledFile(meetingId: string, stored: seq<string>, files: seq<RecordingFile>,
                                               fetchChat: RecordingFile -> string, upload: RecordingFile -> Option<string>)
    ensures var st := ScanAll(meetingId, stored, files, fetchChat, upload);
      st.chat.Some? ==> exists h :: h in st.handled && Extension(h) == "chat" && st.chat.value == ParseChat(fetchChat(h))
  {
    if files != [] {
      var init := files[..|files| - 1];
      ChatFromHandledFile(meetingId, stored, init, fetchChat, upload);
    }
  }

  /** The parse of the transcript of the last chat file among `handled`, if there is one. */
  function LastChat(handled: seq<RecordingFile>, fetchChat: RecordingFile -> string): Option<seq<ChatLine>>
  {
    if handled == [] then None
    else if Extension(handled[|handled| - 1]) == "chat" then Some(ParseChat(fetchChat(handled[|handled| - 1])))
    else LastChat(handled[..|handled| - 1], fetchChat)
  }

  /**
   * The chat the loop writes is the parse of the last handled chat file's
   * transcript: each handled chat file overwrites the one before, and the chat
   * stays unwritten exactly when no chat file was handled.
   */
  lemma {:induction false} ChatIsLastHandledChat(meetingId: string, stored: seq<string>, files: seq<RecordingFile>,
                                                 fetchChat: RecordingFile -> string, upload: RecordingFile -> Option<string>)
    ensures var st := ScanAll(meetingId, stored, files, fetchChat, upload);
      st.chat == LastChat(st.handled, fetchChat)
  {
    if files != [] {
      var init := files[..|files| - 1];
      ChatIsLastHandledChat(meetingId, stored, init, fetchChat, upload);
      var before := ScanAll(meetingId, stored, init, fetchChat, upload);
      var st := ScanAll(meetingId, stored, files, fetchChat, upload);
      if st.handled != before.handled {
        assert st.handled[..|st.handled| - 1] == before.handled;
      }
    }
  }

  /** Handling some chat file is what makes the loop write a chat. */
  lemma ChatWrittenIffChatHandled(meetingId: string, stored: seq<string>, files: seq<RecordingFile>,
                                  fetchChat: RecordingFile -> string, upload: RecordingFile -> Option<string>)
    ensures var st := ScanAll(meetingId, stored, files, fetchChat, upload);
      st.chat.Some? <==> exists h :: h in st.handled && Extension(h) == "chat"
  {
    var st := ScanAll(meetingId, stored, files, fetchChat, upload);
    ChatIsLastHandledChat(meetingId, stored, files, fetchChat, upload);
    LastChatSomeIffChat(st.handled, fetchChat);
  }

  lemma {:induction false} LastChatSomeIffChat(handled: seq<RecordingFile>, fetchChat: RecordingFile -> string)
    ensures LastChat(handled, fetchChat).Some? <==> exists h :: h in handled && Extension(h) == "chat"
  {
    if handled != [] {
      var init := handled[..|handled| - 1];
      LastChatSomeIffChat(init, fetchChat);
      assert forall h :: h in handled <==> h in init || h == handled[|handled| - 1];
    }
  }

  /**
   * When file ids are distinct and each uploaded URL mentions its file's id
   * (the upload is named `recording-<meeting>-<file id>.mp4`), a second
   * delivery of the same event, against the record the first one updated,
   * uploads nothing again.
   */
  lemma RedeliveryUploadsNothing(record: ZoomRecord, meetingId: string, files: seq<RecordingFile>,
                                 fetchChat: RecordingFile -> string, upload: RecordingFile -> Option<string>)
    requires forall i, j :: 0 <= i < j < |files| ==> files[i].id != files[j].id
    requires forall f :: upload(f).Some? ==> Includes(upload(f).value, f.id)
    ensures var first := Updated(Some(record), ScanAll(meetingId, record.download, files, fetchChat, upload)).value;
      ScanAll(meetingId, first.download, files, fetchChat, upload).uploads == []
  {
    var st1 := ScanAll(meetingId, record.download, files, fetchChat, upload);
    var stored2 := record.download + st1.uploads;
    var st2 := ScanAll(meetingId, stored2, files, fetchChat, upload);
    UploadsOfHandledVideos(meetingId, stored2, files, fetchChat, upload);
    UploadsOfHandledVideos(meetingId, record.download, files, fetchChat, upload);
    HandledOnce(meetingId, stored2, files, fetchChat, upload);
    HandledOnce(meetingId, record.download, files, fetchChat, upload);
    EligibleFilesCovered(meetingId, record.download, files, fetchChat, upload);
    if st2.uploads != [] {
      var u := st2.uploads[0];
      assert u in st2.uploads;
      var h :| h in st2.handled && IsUploaded(h, upload) && upload(h) == Some(u);
      // h was eligible the first time too, so the first delivery handled a file with its id
      assert !StoredMentions(record.download, h.id);
      assert Key(meetingId, h.id) in st1.cache;
      var g :| g in st1.handled && Key(meetingId, h.id) == Key(meetingId, g.id);
      KeyInjective(meetingId, h.id, g.id);
      assert false;
    }
  }

  // ---------------------------------------------------------------------------
  // The handler

  /**
   * The recording loop of app.js:716-804 for the meeting `meetingId`, whose
   * record `Zoom.findOne` returned as `record`.
   */
  method RecordingCompleted(record: Option<ZoomRecord>, meetingId: string, files: seq<RecordingFile>,
                            fetchChat: RecordingFile -> string, upload: RecordingFile -> Option<string>)
    returns (after: Option<ZoomRecord>)
    ensures after == Updated(record, ScanAll(meetingId, StoredOf(record), files, fetchChat, upload))
  {
    var stored := StoredOf(record);
    var uploadedFileCache: set<string> := {};
    var uploadedUrls: seq<string> := [];
    var chat: Option<seq<ChatLine>> := None;
    ghost var handled: seq<RecordingFile> := [];
    for i := 0 to |files|
      invariant Scan(uploadedFileCache, chat, uploadedUrls, handled)
             == ScanAll(meetingId, stored, files[..i], fetchChat, upload)
    {
      var file := files[i];
      assert files[..i + 1][..i] == files[..i];
      if !Truthy(file.downloadUrl) {
        continue;
      }
      var ext := ToLowerAscii(file.fileType);
      var uniqueKey := Key(meetingId, file.id);
      if uniqueKey in uploadedFileCache || StoredMentions(stored, file.id) {
        continue;
      }
      uploadedFileCache := uploadedFileCache + {uniqueKey};
      handled := handled + [file];
      if ext == "chat" {
        chat := Some(ParseChat(fetchChat(file)));
        continue;
      }
      if ext == "mp4" {
        var uploadedUrl := upload(file);
        if uploadedUrl.Some? {
          uploadedUrls := uploadedUrls + [uploadedUrl.value];
        }
      }
    }
    assert files[..|files|] == files;
    assert Scan(uploadedFileCache, chat, uploadedUrls, handled) == ScanAll(meetingId, stored, files, fetchChat, upload);
    after := None;
    if record.Some? {
      var r := record.value;
      var newChat := if chat.Some? then chat else r.chat;
      var newDownload := r.download;
      if |uploadedUrls| > 0 {
        newDownload := r.download + uploadedUrls;
      } else {
        assert r.download + uploadedUrls == r.download;
      }
      after := Some(r.(chat := newChat, download := newDownload));
    }
  }
}
