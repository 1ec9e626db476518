/**
 The item editor's save action: required-field check, optional image upload,
 then one update (when editing) or one insert (when creating) of the menu item,
 with the `uploading` flag raised for the duration.
 */
module ManageItem {
  import opened Wrappers
  import opened ImagePath

  type MenuItemId = int

  /** The image held by the editor: a picked asset carries base64 data, the
      existing picture of an edited item only its URI. */
  datatype ImageAsset = ImageAsset(uri: string, base64: Option<string>)

  /** The fields of the edited item that saving reads. */
  datatype MenuItem = MenuItem(id: MenuItemId, imageUrl: Option<string>)

  /** The editor's state when Save is pressed. `itemToEdit` is None when a new
      item is being created. The price is the text typed in. */
  datatype Form = Form(name: string, description: string, priceText: string,
                       image: Option<ImageAsset>, itemToEdit: Option<MenuItem>)

  /** The record written to `menu_items`. */
  datatype ItemData = ItemData(name: string, description: string, priceText: string,
                               imageUrl: Option<string>)

  /** What saving does, in order: flag changes, the storage upload, the write. */
  datatype Event =
    | SetUploading(on: bool)
    | Upload(path: string, contentType: string, base64: string)
    | UpdateItem(id: MenuItemId, data: ItemData)
    | InsertItem(data: ItemData)
  {
    predicate IsWrite() { UpdateItem? || InsertItem? }
  }

  /** How a save ends. */
  datatype SaveStatus = MissingFields | UploadFailed | WriteFailed | Saved

  datatype SaveRun = SaveRun(status: SaveStatus, events: seq<Event>)

  /** `!name || !price`: an empty name or price blocks saving. */
  predicate MissingRequired(form: Form)
  {
    form.name == [] || form.priceText == []
  }

  /** `image && image.base64`: an image with non-empty base64 data. */
  predicate HasNewImage(form: Form)
  {
    form.image.Some? && form.image.value.base64.Some? && form.image.value.base64.value != []
  }

  /** `itemToEdit?.image_url`. */
  function ExistingImageUrl(form: Form): Option<string>
  {
    if form.itemToEdit.Some? then form.itemToEdit.value.imageUrl else None
  }

  /** The write for `data`: an update keyed by the edited item's id, or an insert. */
  function WriteEvent(form: Form, data: ItemData): (e: Event)
    ensures e.IsWrite()
    ensures e.UpdateItem? <==> form.itemToEdit.Some?
    ensures e.UpdateItem? ==> e.id == form.itemToEdit.value.id && e.data == data
    ensures e.InsertItem? ==> e.data == data
  {
    if form.itemToEdit.Some? then UpdateItem(form.itemToEdit.value.id, data) else InsertItem(data)
  }

  /** `handleSave` on `form`, with `now` the clock reading, `uploadResult` the
      storage upload's answer, `publicUrl` the URL storage gives the uploaded
      file, and `writeResult` the answer of the update or insert. */
  function RunSave(form: Form, now: nat, uploadResult: Outcome, publicUrl: string,
                   writeResult: Outcome): (r: SaveRun)
    // Missing fields: nothing happens at all, the flag included.
    ensures MissingRequired(form) <==> r.status == MissingFields
    ensures MissingRequired(form) ==> r.events == []
    // A failed upload ends the save; otherwise it ends with the write's answer.
    ensures r.status == UploadFailed <==>
      !MissingRequired(form) && HasNewImage(form) && uploadResult.Err?
    ensures r.status == Saved <==>
      !MissingRequired(form) && (!HasNewImage(form) || uploadResult.Ok?) && writeResult.Ok?
  {
    if MissingRequired(form) then
      SaveRun(MissingFields, [])
    else
      var imageUrl := if HasNewImage(form) then Some(publicUrl) else ExistingImageUrl(form);
      var write := WriteEvent(form, ItemData(form.name, form.description, form.priceText, imageUrl));
      var status := if writeResult.Ok? then Saved else WriteFailed;
      if HasNewImage(form) then
        var image := form.image.value;
        var upload := Upload(StoragePath(now, image.uri), ContentType(image.uri), image.base64.value);
        if uploadResult.Err? then
          SaveRun(UploadFailed, [SetUploading(true), upload, SetUploading(false)])
        else
          SaveRun(status, [SetUploading(true), upload, write, SetUploading(false)])
      else
        SaveRun(status, [SetUploading(true), write, SetUploading(false)])
  }

  /** Unless the required fields are missing, the flag is raised first,
      lowered last, and touched nowhere in between. */
  lemma SaveRaisesAndLowersFlag(form: Form, now: nat, uploadResult: Outcome,
                                publicUrl: string, writeResult: Outcome)
    requires !MissingRequired(form)
    ensures var events := RunSave(form, now, uploadResult, publicUrl, writeResult).events;
      && |events| >= 2
      && events[0] == SetUploading(true)
      && events[|events| - 1] == SetUploading(false)
      && forall i | 0 < i < |events| - 1 :: !events[i].SetUploading?
  {
  }

  /** An upload happens only for a new image, right after the flag is raised,
      to the derived storage path with the derived content type. */
  lemma SaveUploadsOnlyNewImage(form: Form, now: nat, uploadResult: Outcome,
                                publicUrl: string, writeResult: Outcome)
    ensures var events := RunSave(form, now, uploadResult, publicUrl, writeResult).events;
      && (forall i | 0 <= i < |events| && events[i].Upload? :: i == 1 && HasNewImage(form))
      && (!MissingRequired(form) && HasNewImage(form) ==>
            var image := form.image.value;
            |events| > 1 &&
            events[1] == Upload(StoragePath(now, image.uri), ContentType(image.uri), image.base64.value))
  {
  }

  /** A failed upload is followed by no write. */
  lemma SaveUploadFailureWritesNothing(form: Form, now: nat, uploadResult: Outcome,
                                       publicUrl: string, writeResult: Outcome)
    requires RunSave(form, now, uploadResult, publicUrl, writeResult).status == UploadFailed
    ensures var events := RunSave(form, now, uploadResult, publicUrl, writeResult).events;
      forall i | 0 <= i < |events| :: !events[i].IsWrite()
  {
  }

  /** Exactly one write follows a successful upload or no upload: the event
      just before the flag is lowered, and no other. */
  lemma SaveWritesOnce(form: Form, now: nat, uploadResult: Outcome,
                       publicUrl: string, writeResult: Outcome)
    ensures var r := RunSave(form, now, uploadResult, publicUrl, writeResult);
      && (r.status == WriteFailed || r.status == Saved ==>
            |r.events| >= 3 && r.events[|r.events| - 2].IsWrite())
      && (forall i | 0 <= i < |r.events| && r.events[i].IsWrite() ::
            i == |r.events| - 2 && (r.status == WriteFailed || r.status == Saved))
  {
  }

  /** The write is an update keyed by the edited item's id when editing, an
      insert otherwise, and carries the form's fields with the uploaded
      image's URL or, without a new image, the item's existing one. */
  lemma SaveWriteTargetsAndRecord(form: Form, now: nat, uploadResult: Outcome,
                                  publicUrl: string, writeResult: Outcome)
    ensures var events := RunSave(form, now, uploadResult, publicUrl, writeResult).events;
      && (forall i | 0 <= i < |events| && events[i].UpdateItem? ::
            form.itemToEdit.Some? && events[i].id == form.itemToEdit.value.id)
      && (forall i | 0 <= i < |events| && events[i].InsertItem? :: form.itemToEdit.None?)
      && (forall i | 0 <= i < |events| && events[i].IsWrite() ::
            events[i].data == ItemData(form.name, form.description, form.priceText,
                                       if HasNewImage(form) then Some(publicUrl) else ExistingImageUrl(form)))
  {
  }

  /** The value of the `uploading` flag after `events`, starting from `before`:
      the last flag change, if any. */
  function FlagAfter(before: bool, events: seq<Event>): bool
  {
    if events == [] then before
    else
      var last := events[|events| - 1];
      if last.SetUploading? then last.on else FlagAfter(before, events[..|events| - 1])
  }

  /** Every path that raises the `uploading` flag lowers it again; a save
      stopped by missing fields leaves it as it was. */
  lemma UploadingResetOnEveryPath(form: Form, now: nat, uploadResult: Outcome,
                                  publicUrl: string, writeResult: Outcome, before: bool)
    ensures var r := RunSave(form, now, uploadResult, publicUrl, writeResult);
      FlagAfter(before, r.events) == (if r.status == MissingFields then before else false)
  {
  }

  /** The editor screen's state that saving changes: the `uploading` flag, and
      the log of what saving did. */
  class ManageItemScreen {
    var uploading: bool
    var events: seq<Event>

    constructor ()
      ensures !uploading && events == []
    {
      uploading := false;
      events := [];
    }

    /** `setUploading`. */
    method SetUploading(on: bool)
      modifies this
      ensures uploading == on && events == old(events) + [Event.SetUploading(on)]
    {
      uploading := on;
      events := events + [Event.SetUploading(on)];
    }

    /** The storage upload; it answers with `answer`. */
    method Upload(path: string, contentType: string, base64: string, answer: Outcome)
      returns (result: Outcome)
      modifies this
      ensures result == answer && uploading == old(uploading)
      ensures events == old(events) + [Event.Upload(path, contentType, base64)]
    {
      events := events + [Event.Upload(path, contentType, base64)];
      result := answer;
    }

    /** The `menu_items` update filtered by id, or the insert; it answers
        with `answer`. */
    method Write(e: Event, answer: Outcome) returns (result: Outcome)
      requires e.IsWrite()
      modifies this
      ensures result == answer && uploading == old(uploading)
      ensures events == old(events) + [e]
    {
      events := events + [e];
      result := answer;
    }

    /** `handleSave`, step by step. */
    method HandleSave(form: Form, now: nat, uploadResult: Outcome, publicUrl: string,
                      writeResult: Outcome)
      returns (status: SaveStatus)
      modifies this
      ensures var r := RunSave(form, now, uploadResult, publicUrl, writeResult);
        status == r.status && events == old(events) + r.events
      ensures uploading == if status == MissingFields then old(uploading) else false
    {
      if form.name == [] || form.priceText == [] {
        return MissingFields;
      }

      ghost var before := events;
      SetUploading(true);

      var imageUrl := ExistingImageUrl(form);
      ghost var uploads: seq<Event> := [];

      if form.image.Some? && form.image.value.base64.Some? && form.image.value.base64.value != [] {
        var image := form.image.value;
        var fileExt := FileExt(image.uri);
        var filePath := "public/" + FileName(now, fileExt);
        var uploadError := Upload(filePath, "image/" + fileExt, image.base64.value, uploadResult);
        uploads := [Event.Upload(filePath, "image/" + fileExt, image.base64.value)];
        if uploadError.Err? {
          SetUploading(false);
          assert events == before + [Event.SetUploading(true)] + uploads + [Event.SetUploading(false)];
          return UploadFailed;
        }
        imageUrl := Some(publicUrl);
      }

      var itemData := ItemData(form.name, form.description, form.priceText, imageUrl);
      var write := WriteEvent(form, itemData);
      var error := Write(write, writeResult);

      status := if error.Err? then WriteFailed else Saved;

      SetUploading(false);
      assert events == before + [Event.SetUploading(true)] + uploads + [write, Event.SetUploading(false)];
    }
  }
}
