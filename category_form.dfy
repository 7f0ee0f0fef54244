/**
 * The admin category form's image checks: the schema's two refinements on
 * the picked file and the change handler that checks the same limits before
 * showing a preview.
 */
module CategoryForm {
  import opened Wrappers
  import ProductForm

  type File = ProductForm.File

  const MaxImageBytes: nat := 2 * 1024 * 1024
  const ImageTypes: set<string> := {"image/jpeg", "image/png", "image/webp"}

  predicate NameOk(name: string) { 3 <= |name| <= 100 }

  /**
   * The schema's image refinements: no file, or a first file whose size is
   * non-zero (a zero size is falsy) and at most 2 MB, of an accepted type.
   */
  predicate SchemaImageOk(files: Option<seq<File>>)
  {
    files.None? || files.value == []
    || (0 < files.value[0].size <= MaxImageBytes && files.value[0].mime in ImageTypes)
  }

  /** What the change handler does with the picked files. */
  datatype ImageChange =
    | Refused(preview: Option<string>)   // too large or wrong type: alert, clear the input, show the current image
    | Reading(file: File)                // the file is read and becomes the preview
    | Cancelled(preview: Option<string>) // nothing picked: show the current image

  function HandleImageChange(files: Option<seq<File>>, currentImage: Option<string>): (r: ImageChange)
    ensures r.Reading? <==> files.Some? && files.value != []
                            && files.value[0].size <= MaxImageBytes && files.value[0].mime in ImageTypes
    ensures r.Reading? ==> r.file == files.value[0]
    ensures r.Cancelled? <==> files.None? || files.value == []
    ensures !r.Reading? ==> r.preview == currentImage
  {
    if files.Some? && files.value != [] then
      var file := files.value[0];
      if file.size > MaxImageBytes then Refused(currentImage)
      else if file.mime !in ImageTypes then Refused(currentImage)
      else Reading(file)
    else Cancelled(currentImage)
  }

  /**
   * The handler and the schema enforce the same limits: a file the schema
   * accepts is read by the handler, and a non-empty file the handler reads
   * passes the schema; a refused file never passes it.
   */
  lemma HandlerMatchesSchema(files: Option<seq<File>>, currentImage: Option<string>)
    requires files.Some? && files.value != []
    ensures SchemaImageOk(files) ==> HandleImageChange(files, currentImage).Reading?
    ensures HandleImageChange(files, currentImage).Reading? && files.value[0].size > 0 ==> SchemaImageOk(files)
    ensures HandleImageChange(files, currentImage).Refused? ==> !SchemaImageOk(files)
  {
  }
}
