/** components/feed/CreatePostForm.tsx: the chosen file's media type and the submit flow around
    the upload and create calls. Both calls are outcome parameters. */
module CreatePostForm {
  import opened Types
  import opened Strings
  import Cloudinary

  /** A file from the file input. */
  datatype MediaFile = MediaFile(name: string, mimeType: string, size: nat)

  /** `file.type.startsWith('image') ? 'image' : 'video'`. */
  function MediaTypeOf(mimeType: string): (t: MediaType)
    ensures t == Image <==> "image" <= mimeType
    ensures t == Video <==> !("image" <= mimeType)
  {
    if "image" <= mimeType then Image else Video
  }

  /** Every type the Cloudinary upload accepts is classified as an image, and a video type as a
      video. */
  lemma UploadableTypesAreImages()
    ensures forall t :: t in Cloudinary.AllowedTypes ==> MediaTypeOf(t) == Image
    ensures MediaTypeOf("video/mp4") == Video
  {
    assert "image"[0] != "video/mp4"[0];
  }

  /** What createPost receives. */
  datatype NewPostData = NewPostData(authorId: string, content: string, mediaURL: Option<string>, mediaType: Option<MediaType>)

  const SubmitErrorMessage: string := "Failed to create post. Please try again."

  /** What one submit asked of the backend and handed to `onPostCreated`. */
  datatype SubmitRun = SubmitRun(uploaded: Option<MediaFile>, request: Option<NewPostData>, reported: Option<Post>)

  /** The upload step passes: no file was selected, or the upload returned a URL. */
  predicate UploadSucceeded(file: Option<MediaFile>, uploadResult: Option<string>) {
    file.None? || uploadResult.Some?
  }

  /** The `mediaURL` handed to createPost: the uploaded URL, or none without a file. */
  function MediaUrl(file: Option<MediaFile>, uploadResult: Option<string>): Option<string> {
    if file.Some? then uploadResult else None
  }

  class CreatePostFormState {
    const user: Option<User>
    var content: string
    var mediaFile: Option<MediaFile>
    var mediaType: Option<MediaType>
    var loading: bool
    var error: string

    constructor(user: Option<User>)
      ensures this.user == user && content == "" && mediaFile.None? && mediaType.None?
      ensures !loading && error == ""
    {
      this.user := user;
      content := "";
      mediaFile := None;
      mediaType := None;
      loading := false;
      error := "";
    }

    /** handleFileChange: a chosen file is kept with the media type its MIME type implies; with
        no file chosen nothing changes. */
    method HandleFileChange(file: Option<MediaFile>)
      modifies this
      ensures file.Some? ==> mediaFile == file && mediaType == Some(MediaTypeOf(file.value.mimeType))
      ensures file.None? ==> mediaFile == old(mediaFile) && mediaType == old(mediaType)
      ensures content == old(content) && loading == old(loading) && error == old(error)
    {
      if file.Some? {
        mediaFile := file;
        mediaType := Some(MediaTypeOf(file.value.mimeType));
      }
    }

    /** handleSubmit. With blank content or no user nothing happens. Otherwise the error is cleared,
        the selected file (only) is uploaded, createPost gets the author, the untrimmed content,
        the URL and the type; on success the post is reported and the form reset; on any failure
        the fixed message is shown and the form kept. Loading ends false. */
    method HandleSubmit(uploadResult: Option<string>, created: Option<Post>) returns (run: SubmitRun)
      modifies this
      ensures IsBlank(old(content)) || user.None? ==>
        run == SubmitRun(None, None, None) && content == old(content) && mediaFile == old(mediaFile) &&
        mediaType == old(mediaType) && loading == old(loading) && error == old(error)
      ensures !IsBlank(old(content)) && user.Some? ==> run.uploaded == old(mediaFile) && !loading
      ensures !IsBlank(old(content)) && user.Some? ==>
        run.request == (if UploadSucceeded(old(mediaFile), uploadResult)
                        then Some(NewPostData(user.value.id, old(content), MediaUrl(old(mediaFile), uploadResult), old(mediaType)))
                        else None)
      ensures !IsBlank(old(content)) && user.Some? ==>
        run.reported == (if UploadSucceeded(old(mediaFile), uploadResult) then created else None)
      ensures !IsBlank(old(content)) && user.Some? && UploadSucceeded(old(mediaFile), uploadResult) && created.Some? ==>
        content == "" && mediaFile.None? && mediaType.None? && error == ""
      ensures !IsBlank(old(content)) && user.Some? && !(UploadSucceeded(old(mediaFile), uploadResult) && created.Some?) ==>
        content == old(content) && mediaFile == old(mediaFile) && mediaType == old(mediaType) && error == SubmitErrorMessage
    {
      if IsBlank(content) || user.None? {
        return SubmitRun(None, None, None);
      }
      // The model takes the handler's steps as one: loading is set and error cleared at the
      // start, and both are set again on every path below, so only their final values are kept
      var ok := UploadSucceeded(mediaFile, uploadResult) && created.Some?;
      run := SubmitRun(mediaFile, None, None);
      if UploadSucceeded(mediaFile, uploadResult) {
        run := run.(request := Some(NewPostData(user.value.id, content, MediaUrl(mediaFile, uploadResult), mediaType)),
                    reported := created);
      }
      if ok {
        content, mediaFile, mediaType, error, loading := "", None, None, "", false;
      } else {
        error, loading := SubmitErrorMessage, false;
      }
    }
  }
}
