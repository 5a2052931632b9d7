/** The checksum tables: 256 words, held in 16 rows of 16. */
module CrcTables {
  import opened CrcAlgebra

  const POLYNOMIAL16: Word := 0x8408
  const POLYNOMIAL32: Word := 0xEDB88320

  const TABLE16: seq<seq<Word>> := [
    [0x0000, 0x1189, 0x2312, 0x329B, 0x4624, 0x57AD, 0x6536, 0x74BF,
     0x8C48, 0x9DC1, 0xAF5A, 0xBED3, 0xCA6C, 0xDBE5, 0xE97E, 0xF8F7],
    [0x1081, 0x0108, 0x3393, 0x221A, 0x56A5, 0x472C, 0x75B7, 0x643E,
     0x9CC9, 0x8D40, 0xBFDB, 0xAE52, 0xDAED, 0xCB64, 0xF9FF, 0xE876],
    [0x2102, 0x308B, 0x0210, 0x1399, 0x6726, 0x76AF, 0x4434, 0x55BD,
     0xAD4A, 0xBCC3, 0x8E58, 0x9FD1, 0xEB6E, 0xFAE7, 0xC87C, 0xD9F5],
    [0x3183, 0x200A, 0x1291, 0x0318, 0x77A7, 0x662E, 0x54B5, 0x453C,
     0xBDCB, 0xAC42, 0x9ED9, 0x8F50, 0xFBEF, 0xEA66, 0xD8FD, 0xC974],
    [0x4204, 0x538D, 0x6116, 0x709F, 0x0420, 0x15A9, 0x2732, 0x36BB,
     0xCE4C, 0xDFC5, 0xED5E, 0xFCD7, 0x8868, 0x99E1, 0xAB7A, 0xBAF3],
    [0x5285, 0x430C, 0x7197, 0x601E, 0x14A1, 0x0528, 0x37B3, 0x263A,
     0xDECD, 0xCF44, 0xFDDF, 0xEC56, 0x98E9, 0x8960, 0xBBFB, 0xAA72],
    [0x6306, 0x728F, 0x4014, 0x519D, 0x2522, 0x34AB, 0x0630, 0x17B9,
     0xEF4E, 0xFEC7, 0xCC5C, 0xDDD5, 0xA96A, 0xB8E3, 0x8A78, 0x9BF1],
    [0x7387, 0x620E, 0x5095, 0x411C, 0x35A3, 0x242A, 0x16B1, 0x0738,
     0xFFCF, 0xEE46, 0xDCDD, 0xCD54, 0xB9EB, 0xA862, 0x9AF9, 0x8B70],
    [0x8408, 0x9581, 0xA71A, 0xB693, 0xC22C, 0xD3A5, 0xE13E, 0xF0B7,
     0x0840, 0x19C9, 0x2B52, 0x3ADB, 0x4E64, 0x5FED, 0x6D76, 0x7CFF],
    [0x9489, 0x8500, 0xB79B, 0xA612, 0xD2AD, 0xC324, 0xF1BF, 0xE036,
     0x18C1, 0x0948, 0x3BD3, 0x2A5A, 0x5EE5, 0x4F6C, 0x7DF7, 0x6C7E],
    [0xA50A, 0xB483, 0x8618, 0x9791, 0xE32E, 0xF2A7, 0xC03C, 0xD1B5,
     0x2942, 0x38CB, 0x0A50, 0x1BD9, 0x6F66, 0x7EEF, 0x4C74, 0x5DFD],
    [0xB58B, 0xA402, 0x9699, 0x8710, 0xF3AF, 0xE226, 0xD0BD, 0xC134,
     0x39C3, 0x284A, 0x1AD1, 0x0B58, 0x7FE7, 0x6E6E, 0x5CF5, 0x4D7C],
    [0xC60C, 0xD785, 0xE51E, 0xF497, 0x8028, 0x91A1, 0xA33A, 0xB2B3,
     0x4A44, 0x5BCD, 0x6956, 0x78DF, 0x0C60, 0x1DE9, 0x2F72, 0x3EFB],
    [0xD68D, 0xC704, 0xF59F, 0xE416, 0x90A9, 0x8120, 0xB3BB, 0xA232,
     0x5AC5, 0x4B4C, 0x79D7, 0x685E, 0x1CE1, 0x0D68, 0x3FF3, 0x2E7A],
    [0xE70E, 0xF687, 0xC41C, 0xD595, 0xA12A, 0xB0A3, 0x8238, 0x93B1,
     0x6B46, 0x7ACF, 0x4854, 0x59DD, 0x2D62, 0x3CEB, 0x0E70, 0x1FF9],
    [0xF78F, 0xE606, 0xD49D, 0xC514, 0xB1AB, 0xA022, 0x92B9, 0x8330,
     0x7BC7, 0x6A4E, 0x58D5, 0x495C, 0x3DE3, 0x2C6A, 0x1EF1, 0x0F78]
  ]

  const TABLE32: seq<seq<Word>> := [
    [0x00000000, 0x77073096, 0xEE0E612C, 0x990951BA, 0x076DC419, 0x706AF48F, 0xE963A535, 0x9E6495A3,
     0x0EDB8832, 0x79DCB8A4, 0xE0D5E91E, 0x97D2D988, 0x09B64C2B, 0x7EB17CBD, 0xE7B82D07, 0x90BF1D91],
    [0x1DB71064, 0x6AB020F2, 0xF3B97148, 0x84BE41DE, 0x1ADAD47D, 0x6DDDE4EB, 0xF4D4B551, 0x83D385C7,
     0x136C9856, 0x646BA8C0, 0xFD62F97A, 0x8A65C9EC, 0x14015C4F, 0x63066CD9, 0xFA0F3D63, 0x8D080DF5],
    [0x3B6E20C8, 0x4C69105E, 0xD56041E4, 0xA2677172, 0x3C03E4D1, 0x4B04D447, 0xD20D85FD, 0xA50AB56B,
     0x35B5A8FA, 0x42B2986C, 0xDBBBC9D6, 0xACBCF940, 0x32D86CE3, 0x45DF5C75, 0xDCD60DCF, 0xABD13D59],
    [0x26D930AC, 0x51DE003A, 0xC8D75180, 0xBFD06116, 0x21B4F4B5, 0x56B3C423, 0xCFBA9599, 0xB8BDA50F,
     0x2802B89E, 0x5F058808, 0xC60CD9B2, 0xB10BE924, 0x2F6F7C87, 0x58684C11, 0xC1611DAB, 0xB6662D3D],
    [0x76DC4190, 0x01DB7106, 0x98D220BC, 0xEFD5102A, 0x71B18589, 0x06B6B51F, 0x9FBFE4A5, 0xE8B8D433,
     0x7807C9A2, 0x0F00F934, 0x9609A88E, 0xE10E9818, 0x7F6A0DBB, 0x086D3D2D, 0x91646C97, 0xE6635C01],
    [0x6B6B51F4, 0x1C6C6162, 0x856530D8, 0xF262004E, 0x6C0695ED, 0x1B01A57B, 0x8208F4C1, 0xF50FC457,
     0x65B0D9C6, 0x12B7E950, 0x8BBEB8EA, 0xFCB9887C, 0x62DD1DDF, 0x15DA2D49, 0x8CD37CF3, 0xFBD44C65],
    [0x4DB26158, 0x3AB551CE, 0xA3BC0074, 0xD4BB30E2, 0x4ADFA541, 0x3DD895D7, 0xA4D1C46D, 0xD3D6F4FB,
     0x4369E96A, 0x346ED9FC, 0xAD678846, 0xDA60B8D0, 0x44042D73, 0x33031DE5, 0xAA0A4C5F, 0xDD0D7CC9],
    [0x5005713C, 0x270241AA, 0xBE0B1010, 0xC90C2086, 0x5768B525, 0x206F85B3, 0xB966D409, 0xCE61E49F,
     0x5EDEF90E, 0x29D9C998, 0xB0D09822, 0xC7D7A8B4, 0x59B33D17, 0x2EB40D81, 0xB7BD5C3B, 0xC0BA6CAD],
    [0xEDB88320, 0x9ABFB3B6, 0x03B6E20C, 0x74B1D29A, 0xEAD54739, 0x9DD277AF, 0x04DB2615, 0x73DC1683,
     0xE3630B12, 0x94643B84, 0x0D6D6A3E, 0x7A6A5AA8, 0xE40ECF0B, 0x9309FF9D, 0x0A00AE27, 0x7D079EB1],
    [0xF00F9344, 0x8708A3D2, 0x1E01F268, 0x6906C2FE, 0xF762575D, 0x806567CB, 0x196C3671, 0x6E6B06E7,
     0xFED41B76, 0x89D32BE0, 0x10DA7A5A, 0x67DD4ACC, 0xF9B9DF6F, 0x8EBEEFF9, 0x17B7BE43, 0x60B08ED5],
    [0xD6D6A3E8, 0xA1D1937E, 0x38D8C2C4, 0x4FDFF252, 0xD1BB67F1, 0xA6BC5767, 0x3FB506DD, 0x48B2364B,
     0xD80D2BDA, 0xAF0A1B4C, 0x36034AF6, 0x41047A60, 0xDF60EFC3, 0xA867DF55, 0x316E8EEF, 0x4669BE79],
    [0xCB61B38C, 0xBC66831A, 0x256FD2A0, 0x5268E236, 0xCC0C7795, 0xBB0B4703, 0x220216B9, 0x5505262F,
     0xC5BA3BBE, 0xB2BD0B28, 0x2BB45A92, 0x5CB36A04, 0xC2D7FFA7, 0xB5D0CF31, 0x2CD99E8B, 0x5BDEAE1D],
    [0x9B64C2B0, 0xEC63F226, 0x756AA39C, 0x026D930A, 0x9C0906A9, 0xEB0E363F, 0x72076785, 0x05005713,
     0x95BF4A82, 0xE2B87A14, 0x7BB12BAE, 0x0CB61B38, 0x92D28E9B, 0xE5D5BE0D, 0x7CDCEFB7, 0x0BDBDF21],
    [0x86D3D2D4, 0xF1D4E242, 0x68DDB3F8, 0x1FDA836E, 0x81BE16CD, 0xF6B9265B, 0x6FB077E1, 0x18B74777,
     0x88085AE6, 0xFF0F6A70, 0x66063BCA, 0x11010B5C, 0x8F659EFF, 0xF862AE69, 0x616BFFD3, 0x166CCF45],
    [0xA00AE278, 0xD70DD2EE, 0x4E048354, 0x3903B3C2, 0xA7672661, 0xD06016F7, 0x4969474D, 0x3E6E77DB,
     0xAED16A4A, 0xD9D65ADC, 0x40DF0B66, 0x37D83BF0, 0xA9BCAE53, 0xDEBB9EC5, 0x47B2CF7F, 0x30B5FFE9],
    [0xBDBDF21C, 0xCABAC28A, 0x53B39330, 0x24B4A3A6, 0xBAD03605, 0xCDD70693, 0x54DE5729, 0x23D967BF,
     0xB3667A2E, 0xC4614AB8, 0x5D681B02, 0x2A6F2B94, 0xB40BBE37, 0xC30C8EA1, 0x5A05DF1B, 0x2D02EF8D]
  ]

  ghost predicate Shape(rows: seq<seq<Word>>) {
    |rows| == 16 && forall r :: 0 <= r < 16 ==> |rows[r]| == 16
  }

  function Entry(rows: seq<seq<Word>>, v: Byte): Word
    requires Shape(rows)
  {
    Nibbles(v);
    rows[(v >> 4) as int][(v & 0xF) as int]
  }

  lemma Nibbles(v: Byte)
    ensures v >> 4 < 16 && v & 0xF < 16 && ((v >> 4) << 4) ^ (v & 0xF) == v
    ensures (v >> 4) as int < 16 && (v & 0xF) as int < 16
  {
  }

  /** Every entry is the sum of the first of its row and the one above it in the first row. */
  ghost predicate RowCombines(row: seq<Word>, top: seq<Word>) {
    |row| == |top| == 16
    && row[0] == Xor(row[0], top[0])
    && row[1] == Xor(row[0], top[1])
    && row[2] == Xor(row[0], top[2])
    && row[3] == Xor(row[0], top[3])
    && row[4] == Xor(row[0], top[4])
    && row[5] == Xor(row[0], top[5])
    && row[6] == Xor(row[0], top[6])
    && row[7] == Xor(row[0], top[7])
    && row[8] == Xor(row[0], top[8])
    && row[9] == Xor(row[0], top[9])
    && row[10] == Xor(row[0], top[10])
    && row[11] == Xor(row[0], top[11])
    && row[12] == Xor(row[0], top[12])
    && row[13] == Xor(row[0], top[13])
    && row[14] == Xor(row[0], top[14])
    && row[15] == Xor(row[0], top[15])
  }

  ghost predicate Combines(rows: seq<seq<Word>>)
    requires Shape(rows)
  {
    && RowCombines(rows[0], rows[0])
    && RowCombines(rows[1], rows[0])
    && RowCombines(rows[2], rows[0])
    && RowCombines(rows[3], rows[0])
    && RowCombines(rows[4], rows[0])
    && RowCombines(rows[5], rows[0])
    && RowCombines(rows[6], rows[0])
    && RowCombines(rows[7], rows[0])
    && RowCombines(rows[8], rows[0])
    && RowCombines(rows[9], rows[0])
    && RowCombines(rows[10], rows[0])
    && RowCombines(rows[11], rows[0])
    && RowCombines(rows[12], rows[0])
    && RowCombines(rows[13], rows[0])
    && RowCombines(rows[14], rows[0])
    && RowCombines(rows[15], rows[0])
  }

  ghost predicate TopRow(p: Word, top: seq<Word>)
  {
    |top| == 16
    && top[0] == Eight(p, 0)
    && top[1] == Eight(p, 1)
    && top[2] == Eight(p, 2)
    && top[3] == Eight(p, 3)
    && top[4] == Eight(p, 4)
    && top[5] == Eight(p, 5)
    && top[6] == Eight(p, 6)
    && top[7] == Eight(p, 7)
    && top[8] == Eight(p, 8)
    && top[9] == Eight(p, 9)
    && top[10] == Eight(p, 10)
    && top[11] == Eight(p, 11)
    && top[12] == Eight(p, 12)
    && top[13] == Eight(p, 13)
    && top[14] == Eight(p, 14)
    && top[15] == Eight(p, 15)
  }

  ghost predicate FirstColumn(p: Word, rows: seq<seq<Word>>)
    requires Shape(rows)
  {
    && rows[0][0] == Eight(p, 0x00)
    && rows[1][0] == Eight(p, 0x10)
    && rows[2][0] == Eight(p, 0x20)
    && rows[3][0] == Eight(p, 0x30)
    && rows[4][0] == Eight(p, 0x40)
    && rows[5][0] == Eight(p, 0x50)
    && rows[6][0] == Eight(p, 0x60)
    && rows[7][0] == Eight(p, 0x70)
    && rows[8][0] == Eight(p, 0x80)
    && rows[9][0] == Eight(p, 0x90)
    && rows[10][0] == Eight(p, 0xA0)
    && rows[11][0] == Eight(p, 0xB0)
    && rows[12][0] == Eight(p, 0xC0)
    && rows[13][0] == Eight(p, 0xD0)
    && rows[14][0] == Eight(p, 0xE0)
    && rows[15][0] == Eight(p, 0xF0)
  }

  lemma Top16_0()
    ensures Eight(0x8408, 0) == 0x0000
    ensures Eight(0x8408, 1) == 0x1189
    ensures Eight(0x8408, 2) == 0x2312
    ensures Eight(0x8408, 3) == 0x329B
  {
  }

  lemma First16_0()
    ensures Eight(0x8408, 0x00) == 0x0000
    ensures Eight(0x8408, 0x10) == 0x1081
    ensures Eight(0x8408, 0x20) == 0x2102
    ensures Eight(0x8408, 0x30) == 0x3183
  {
  }

  lemma Top16_1()
    ensures Eight(0x8408, 4) == 0x4624
    ensures Eight(0x8408, 5) == 0x57AD
    ensures Eight(0x8408, 6) == 0x6536
    ensures Eight(0x8408, 7) == 0x74BF
  {
  }

  lemma First16_1()
    ensures Eight(0x8408, 0x40) == 0x4204
    ensures Eight(0x8408, 0x50) == 0x5285
    ensures Eight(0x8408, 0x60) == 0x6306
    ensures Eight(0x8408, 0x70) == 0x7387
  {
  }

  lemma Top16_2()
    ensures Eight(0x8408, 8) == 0x8C48
    ensures Eight(0x8408, 9) == 0x9DC1
    ensures Eight(0x8408, 10) == 0xAF5A
    ensures Eight(0x8408, 11) == 0xBED3
  {
  }

  lemma First16_2()
    ensures Eight(0x8408, 0x80) == 0x8408
    ensures Eight(0x8408, 0x90) == 0x9489
    ensures Eight(0x8408, 0xA0) == 0xA50A
    ensures Eight(0x8408, 0xB0) == 0xB58B
  {
  }

  lemma Top16_3()
    ensures Eight(0x8408, 12) == 0xCA6C
    ensures Eight(0x8408, 13) == 0xDBE5
    ensures Eight(0x8408, 14) == 0xE97E
    ensures Eight(0x8408, 15) == 0xF8F7
  {
  }

  lemma First16_3()
    ensures Eight(0x8408, 0xC0) == 0xC60C
    ensures Eight(0x8408, 0xD0) == 0xD68D
    ensures Eight(0x8408, 0xE0) == 0xE70E
    ensures Eight(0x8408, 0xF0) == 0xF78F
  {
  }

  lemma Rows16_0()
    ensures Shape(TABLE16)
    ensures RowCombines(TABLE16[0], TABLE16[0])
    ensures RowCombines(TABLE16[1], TABLE16[0])
    ensures RowCombines(TABLE16[2], TABLE16[0])
    ensures RowCombines(TABLE16[3], TABLE16[0])
  {
  }

  lemma Rows16_1()
    ensures Shape(TABLE16)
    ensures RowCombines(TABLE16[4], TABLE16[0])
    ensures RowCombines(TABLE16[5], TABLE16[0])
    ensures RowCombines(TABLE16[6], TABLE16[0])
    ensures RowCombines(TABLE16[7], TABLE16[0])
  {
  }

  lemma Rows16_2()
    ensures Shape(TABLE16)
    ensures RowCombines(TABLE16[8], TABLE16[0])
    ensures RowCombines(TABLE16[9], TABLE16[0])
    ensures RowCombines(TABLE16[10], TABLE16[0])
    ensures RowCombines(TABLE16[11], TABLE16[0])
  {
  }

  lemma Rows16_3()
    ensures Shape(TABLE16)
    ensures RowCombines(TABLE16[12], TABLE16[0])
    ensures RowCombines(TABLE16[13], TABLE16[0])
    ensures RowCombines(TABLE16[14], TABLE16[0])
    ensures RowCombines(TABLE16[15], TABLE16[0])
  {
  }

  lemma Combines16()
    ensures Shape(TABLE16) && Combines(TABLE16)
  {
    hide RowCombines;
    Rows16_0();
    Rows16_1();
    Rows16_2();
    Rows16_3();
  }

  lemma TopRow16()
    ensures Shape(TABLE16) && TopRow(0x8408, TABLE16[0])
  {
    hide Eight;
    Top16_0();
    Top16_1();
    Top16_2();
    Top16_3();
  }

  lemma FirstColumn16()
    ensures Shape(TABLE16) && FirstColumn(0x8408, TABLE16)
  {
    hide Eight;
    First16_0();
    First16_1();
    First16_2();
    First16_3();
  }

  lemma Top32_0()
    ensures Eight(0xEDB88320, 0) == 0x00000000
    ensures Eight(0xEDB88320, 1) == 0x77073096
    ensures Eight(0xEDB88320, 2) == 0xEE0E612C
    ensures Eight(0xEDB88320, 3) == 0x990951BA
  {
  }

  lemma First32_0()
    ensures Eight(0xEDB88320, 0x00) == 0x00000000
    ensures Eight(0xEDB88320, 0x10) == 0x1DB71064
    ensures Eight(0xEDB88320, 0x20) == 0x3B6E20C8
    ensures Eight(0xEDB88320, 0x30) == 0x26D930AC
  {
  }

  lemma Top32_1()
    ensures Eight(0xEDB88320, 4) == 0x076DC419
    ensures Eight(0xEDB88320, 5) == 0x706AF48F
    ensures Eight(0xEDB88320, 6) == 0xE963A535
    ensures Eight(0xEDB88320, 7) == 0x9E6495A3
  {
  }

  lemma First32_1()
    ensures Eight(0xEDB88320, 0x40) == 0x76DC4190
    ensures Eight(0xEDB88320, 0x50) == 0x6B6B51F4
    ensures Eight(0xEDB88320, 0x60) == 0x4DB26158
    ensures Eight(0xEDB88320, 0x70) == 0x5005713C
  {
  }

  lemma Top32_2()
    ensures Eight(0xEDB88320, 8) == 0x0EDB8832
    ensures Eight(0xEDB88320, 9) == 0x79DCB8A4
    ensures Eight(0xEDB88320, 10) == 0xE0D5E91E
    ensures Eight(0xEDB88320, 11) == 0x97D2D988
  {
  }

  lemma First32_2()
    ensures Eight(0xEDB88320, 0x80) == 0xEDB88320
    ensures Eight(0xEDB88320, 0x90) == 0xF00F9344
    ensures Eight(0xEDB88320, 0xA0) == 0xD6D6A3E8
    ensures Eight(0xEDB88320, 0xB0) == 0xCB61B38C
  {
  }

  lemma Top32_3()
    ensures Eight(0xEDB88320, 12) == 0x09B64C2B
    ensures Eight(0xEDB88320, 13) == 0x7EB17CBD
    ensures Eight(0xEDB88320, 14) == 0xE7B82D07
    ensures Eight(0xEDB88320, 15) == 0x90BF1D91
  {
  }

  lemma First32_3()
    ensures Eight(0xEDB88320, 0xC0) == 0x9B64C2B0
    ensures Eight(0xEDB88320, 0xD0) == 0x86D3D2D4
    ensures Eight(0xEDB88320, 0xE0) == 0xA00AE278
    ensures Eight(0xEDB88320, 0xF0) == 0xBDBDF21C
  {
  }

  lemma Rows32_0()
    ensures Shape(TABLE32)
    ensures RowCombines(TABLE32[0], TABLE32[0])
    ensures RowCombines(TABLE32[1], TABLE32[0])
    ensures RowCombines(TABLE32[2], TABLE32[0])
    ensures RowCombines(TABLE32[3], TABLE32[0])
  {
  }

  lemma Rows32_1()
    ensures Shape(TABLE32)
    ensures RowCombines(TABLE32[4], TABLE32[0])
    ensures RowCombines(TABLE32[5], TABLE32[0])
    ensures RowCombines(TABLE32[6], TABLE32[0])
    ensures RowCombines(TABLE32[7], TABLE32[0])
  {
  }

  lemma Rows32_2()
    ensures Shape(TABLE32)
    ensures RowCombines(TABLE32[8], TABLE32[0])
    ensures RowCombines(TABLE32[9], TABLE32[0])
    ensures RowCombines(TABLE32[10], TABLE32[0])
    ensures RowCombines(TABLE32[11], TABLE32[0])
  {
  }

  lemma Rows32_3()
    ensures Shape(TABLE32)
    ensures RowCombines(TABLE32[12], TABLE32[0])
    ensures RowCombines(TABLE32[13], TABLE32[0])
    ensures RowCombines(TABLE32[14], TABLE32[0])
    ensures RowCombines(TABLE32[15], TABLE32[0])
  {
  }

  lemma Combines32()
    ensures Shape(TABLE32) && Combines(TABLE32)
  {
    hide RowCombines;
    Rows32_0();
    Rows32_1();
    Rows32_2();
    Rows32_3();
  }

  lemma TopRow32()
    ensures Shape(TABLE32) && TopRow(0xEDB88320, TABLE32[0])
  {
    hide Eight;
    Top32_0();
    Top32_1();
    Top32_2();
    Top32_3();
  }

  lemma FirstColumn32()
    ensures Shape(TABLE32) && FirstColumn(0xEDB88320, TABLE32)
  {
    hide Eight;
    First32_0();
    First32_1();
    First32_2();
    First32_3();
  }

  // ----- what a table entry is

  lemma Sixteen(l: Word)
    requires l < 16
    ensures l == 0 || l == 1 || l == 2 || l == 3 || l == 4 || l == 5 || l == 6 || l == 7
         || l == 8 || l == 9 || l == 10 || l == 11 || l == 12 || l == 13 || l == 14 || l == 15
  {
  }

  lemma TopAt(p: Word, top: seq<Word>, l: Word)
    requires TopRow(p, top) && l < 16 && l as int < 16
    ensures top[l as int] == Eight(p, l)
  {
    hide Eight;
    Sixteen(l);
  }

  lemma FirstAt(p: Word, rows: seq<seq<Word>>, h: Word)
    requires Shape(rows) && FirstColumn(p, rows) && h < 16 && h as int < 16
    ensures rows[h as int][0] == Eight(p, h << 4)
  {
    hide Eight;
    Sixteen(h);
  }

  lemma RowAt(rows: seq<seq<Word>>, h: Word, l: Word)
    requires Shape(rows) && Combines(rows) && h < 16 && l < 16 && h as int < 16 && l as int < 16
    ensures rows[h as int][l as int] == Xor(rows[h as int][0], rows[0][l as int])
  {
    hide Xor;
    RowsAt(rows, h);
    Sixteen(l);
  }

  lemma RowsAt(rows: seq<seq<Word>>, h: Word)
    requires Shape(rows) && Combines(rows) && h < 16 && h as int < 16
    ensures RowCombines(rows[h as int], rows[0])
  {
    hide RowCombines;
    Sixteen(h);
  }

  ghost predicate Right(p: Word, rows: seq<seq<Word>>) {
    Shape(rows) && Combines(rows) && TopRow(p, rows[0]) && FirstColumn(p, rows)
  }

  /** An entry is its index divided for eight steps. */
  lemma EntryIs(p: Word, rows: seq<seq<Word>>, v: Byte)
    requires Right(p, rows)
    ensures Entry(rows, v) == Eight(p, v)
  {
    hide Eight, Combines, TopRow, FirstColumn;
    var h, l := v >> 4, v & 0xF;
    Nibbles(v);
    RowAt(rows, h, l);
    FirstAt(p, rows, h);
    TopAt(p, rows[0], l);
    EightOfXor(p, h << 4, l);
  }

  lemma TablesRight()
    ensures Right(POLYNOMIAL16, TABLE16) && Right(POLYNOMIAL32, TABLE32)
  {
    hide Combines, TopRow, FirstColumn;
    Combines16();
    TopRow16();
    FirstColumn16();
    Combines32();
    TopRow32();
    FirstColumn32();
  }
}
