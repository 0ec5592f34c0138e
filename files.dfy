/**
 * The output directory as the components leave it: file name to content.
 * A later write of the same name replaces the earlier one, as reopening a
 * file with mode `'w'` does.
 */
module Files {

  datatype Content =
    | Text(text: string)       // written line by line with `fp.write`
    | Table(shape: seq<nat>)   // `np.savetxt` of an array of this shape
    | Spectrum                 // `OceanWaves.to_swan`: format owned by that library

  type FileSystem = map<string, Content>
}
